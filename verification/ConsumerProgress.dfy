/** The locking order cannot deadlock, and nothing accepted is forgotten when the pool never refuses. */
module ConsumerProgress {
  import opened Sums
  import opened ActivityStates
  import opened ConsumerSystem
  import opened ConsumerLocks
  import opened ConsumerAccounts
  import opened ConsumerSafety
  import opened ConsumerRuns
  import opened ConsumerTheorems
  import opened ConsumerOrder
  import opened Options

  /** The thread has returned. */
  predicate Ended(s: System, tid: Tid)
    requires tid in s.threads
  {
    var pc := s.threads[tid].pc;
    s.threads[tid].owed == [] && (pc.Return? || pc.Finished? || pc.PeekEnd? || pc.GcEnd?)
  }

  ghost predicate CanStep(c: Config, s: System, tid: Tid)
    requires GoodConfig(c)
  {
    exists step: Step :: Enabled(c, s, step) && !step.Close? && !step.ReleasePool? && Mover(step) == tid
  }

  /** `x` is stopped at a Lock call for a lock that `y` holds. */
  predicate WaitsFor(c: Config, s: System, x: Tid, y: Tid)
    requires GoodConfig(c)
  {
    && At(s, x) && y in s.threads
    && var px, py := s.threads[x].pc, s.threads[y].pc;
       match px
       case WantShard(_) => ShardHeld(c, y, py) == Some(ShardOf(c, ActivityOf(x)))
       case GcWantShard(i, _) => ShardHeld(c, y, py) == Some(i)
       case WantState(_, o) => StateHeld(py) == Some(o)
       case GcWantState(_, _, _, _, o) => StateHeld(py) == Some(o)
       case _ => false
  }

  lemma Moves(c: Config, s: System, tid: Tid, step: Step)
    requires GoodConfig(c) && Enabled(c, s, step) && !step.Close? && !step.ReleasePool? && Mover(step) == tid
    ensures CanStep(c, s, tid)
  {
  }

  /** A thread in its critical section can leave it. */
  lemma SectionMoves(c: Config, s: System, tid: Tid)
    requires GoodConfig(c) && Inv(c, s) && At(s, tid) && s.threads[tid].pc.HaveState?
    ensures CanStep(c, s, tid)
  {
    var op := s.threads[tid].pc.op;
    assert Fits(s.loc, tid, s.threads[tid].pc);
    SectionCurrent(c, s, tid);
    Moves(c, s, tid,
          match op
          case Handle(_) => HandleCritical(tid.task)
          case RollbackDirect => RollbackDirectCritical(tid.task, 0)
          case RollbackBatch(_) => RollbackBatchCritical(tid.task, 0)
          case Done => DoneCritical(tid.task, 0)
          case Peek => PeekCritical(tid));
  }

  lemma CollectorMoves(c: Config, s: System, tid: Tid)
    requires GoodConfig(c) && Inv(c, s) && At(s, tid) && (s.threads[tid].pc.GcScan? || s.threads[tid].pc.GcHaveState?)
    ensures CanStep(c, s, tid)
  {
    var pc := s.threads[tid].pc;
    assert PointsIntoStore(c, s.store, tid, pc);
    if pc.GcHaveState? {
      Moves(c, s, tid, GcDecide(tid));
    } else if pc.todo == {} {
      Moves(c, s, tid, GcNextShard(tid));
    } else {
      var a := SomeElement(pc.todo);
      Moves(c, s, tid, GcPick(tid, a));
    }
  }

  /** A handler or a worker that is at the pool can submit, if only to be refused. */
  lemma PoolMoves(c: Config, s: System, tid: Tid)
    requires GoodConfig(c) && Homes(s) && At(s, tid) && (s.threads[tid].pc.Reserved? || s.threads[tid].pc.Submitting?)
    ensures CanStep(c, s, tid)
  {
    assert Fits(s.loc, tid, s.threads[tid].pc);
    Moves(c, s, tid, if tid.Handler? then SubmitDirect(tid.task, false) else SubmitNext(tid.task, false));
  }

  lemma TaskMoves(c: Config, s: System, tid: Tid)
    requires GoodConfig(c) && Homes(s) && At(s, tid) && (s.threads[tid].pc.Queued? || s.threads[tid].pc.Running?)
    ensures CanStep(c, s, tid)
  {
    assert Fits(s.loc, tid, s.threads[tid].pc);
    Moves(c, s, tid, if s.threads[tid].pc.Queued? then Run(tid.task) else ProcessEnd(tid.task));
  }

  lemma WorkMoves(c: Config, s: System, tid: Tid)
    requires GoodConfig(c) && Inv(c, s) && At(s, tid)
    requires var pc := s.threads[tid].pc;
             pc.Reserved? || pc.Queued? || pc.Running? || pc.Submitting? || pc.HaveShard? || pc.HaveBoth?
    ensures CanStep(c, s, tid)
  {
    var pc := s.threads[tid].pc;
    if pc.HaveShard? {
      Moves(c, s, tid, Lookup(tid));
    } else if pc.HaveBoth? {
      Moves(c, s, tid, DropShard(tid));
    } else if pc.Reserved? || pc.Submitting? {
      PoolMoves(c, s, tid);
    } else {
      TaskMoves(c, s, tid);
    }
  }

  lemma WantMoves(c: Config, s: System, tid: Tid)
    requires GoodConfig(c) && At(s, tid)
    requires var pc := s.threads[tid].pc; pc.WantShard? || pc.WantState? || pc.GcWantShard? || pc.GcWantState?
    ensures CanStep(c, s, tid) || exists y :: WaitsFor(c, s, tid, y)
  {
    var pc := s.threads[tid].pc;
    if y :| WaitsFor(c, s, tid, y) {
    } else if pc.WantShard? {
      Moves(c, s, tid, TakeShard(tid)) by {
        forall y | y in s.threads ensures ShardHeld(c, y, s.threads[y].pc) != Some(ShardOf(c, ActivityOf(tid))) {
          assert !WaitsFor(c, s, tid, y);
        }
      }
    } else if pc.GcWantShard? {
      Moves(c, s, tid, GcTakeShard(tid)) by {
        forall y | y in s.threads ensures ShardHeld(c, y, s.threads[y].pc) != Some(pc.shard) {
          assert !WaitsFor(c, s, tid, y);
        }
      }
    } else if pc.WantState? {
      Moves(c, s, tid, TakeState(tid)) by {
        forall y | y in s.threads ensures StateHeld(s.threads[y].pc) != Some(pc.obj) {
          assert !WaitsFor(c, s, tid, y);
        }
      }
    } else {
      Moves(c, s, tid, GcTakeState(tid)) by {
        forall y | y in s.threads ensures StateHeld(s.threads[y].pc) != Some(pc.obj) {
          assert !WaitsFor(c, s, tid, y);
        }
      }
    }
  }

  /** A thread that has not returned can step, or waits for a lock somebody holds. */
  lemma StepsOrWaits(c: Config, s: System, tid: Tid)
    requires GoodConfig(c) && Inv(c, s) && tid in s.threads && !Ended(s, tid)
    ensures CanStep(c, s, tid) || exists y :: WaitsFor(c, s, tid, y)
  {
    var pc := s.threads[tid].pc;
    if s.threads[tid].owed != [] {
      Moves(c, s, tid, AddMetric(tid));
    } else if pc.WantShard? || pc.WantState? || pc.GcWantShard? || pc.GcWantState? {
      WantMoves(c, s, tid);
    } else if pc.HaveState? {
      SectionMoves(c, s, tid);
    } else if pc.GcScan? || pc.GcHaveState? {
      CollectorMoves(c, s, tid);
    } else {
      assert Fits(s.loc, tid, pc);
      WorkMoves(c, s, tid);
    }
  }

  /** A lock holder that waits, waits for a state lock. */
  lemma HolderWaitsForState(c: Config, s: System, x: Tid, y: Tid, z: Tid)
    requires GoodConfig(c) && WaitsFor(c, s, x, y) && WaitsFor(c, s, y, z)
    ensures StateHeld(s.threads[z].pc).Some?
  {
  }

  /** The holder of a state lock waits for nothing. */
  lemma StateHolderMoves(c: Config, s: System, z: Tid)
    requires GoodConfig(c) && Inv(c, s) && z in s.threads && StateHeld(s.threads[z].pc).Some?
    ensures CanStep(c, s, z) && forall w :: !WaitsFor(c, s, z, w)
  {
    StepsOrWaits(c, s, z);
  }

  /** WAIT CHAINS. Whoever holds a lock somebody waits for either can step, or itself waits for a
      state lock whose holder can step: wait chains have length at most two. */
  lemma WaitChains(c: Config, s: System, x: Tid, y: Tid)
    requires GoodConfig(c) && Reachable(c, s) && WaitsFor(c, s, x, y)
    ensures CanStep(c, s, y) || exists z :: WaitsFor(c, s, y, z)
    ensures forall z :: WaitsFor(c, s, y, z) ==> CanStep(c, s, z) && forall w :: !WaitsFor(c, s, z, w)
  {
    ReachableInv(c, s);
    HolderNotEnded(c, s, x, y);
    StepsOrWaits(c, s, y);
    forall z | WaitsFor(c, s, y, z)
      ensures CanStep(c, s, z) && forall w :: !WaitsFor(c, s, z, w)
    {
      HolderWaitsForState(c, s, x, y, z);
      StateHolderMoves(c, s, z);
    }
  }

  lemma HolderNotEnded(c: Config, s: System, x: Tid, y: Tid)
    requires GoodConfig(c) && WaitsFor(c, s, x, y)
    ensures !Ended(s, y)
  {
  }

  /** DEADLOCK FREEDOM. In every reachable state in which some thread has not returned, some
      thread can step. */
  lemma DeadlockFree(c: Config, s: System, x: Tid)
    requires GoodConfig(c) && Reachable(c, s) && x in s.threads && !Ended(s, x)
    ensures exists y :: CanStep(c, s, y)
  {
    ReachableInv(c, s);
    StepsOrWaits(c, s, x);
    if !CanStep(c, s, x) {
      var y :| WaitsFor(c, s, x, y);
      WaitChains(c, s, x, y);
      if !CanStep(c, s, y) {
        var z :| WaitsFor(c, s, y, z);
        assert CanStep(c, s, z);
      }
    }
  }

  lemma EndedMeansAtRest(c: Config, s: System)
    requires Homes(s) && forall tid :: tid in s.threads ==> Ended(s, tid)
    ensures forall u: Task :: Worker(u) in s.threads ==> s.threads[Worker(u)].pc.Finished?
    ensures forall u: Task :: Handler(u) in s.threads ==> s.threads[Handler(u)].pc.Return?
  {
    forall u: Task | Worker(u) in s.threads ensures s.threads[Worker(u)].pc.Finished? {
      assert Fits(s.loc, Worker(u), s.threads[Worker(u)].pc) && Ended(s, Worker(u));
    }
    forall u: Task | Handler(u) in s.threads ensures s.threads[Handler(u)].pc.Return? {
      assert Fits(s.loc, Handler(u), s.threads[Handler(u)].pc) && Ended(s, Handler(u));
    }
  }

  lemma NobodyOccupies(s: System, t: Task, a: int)
    requires forall u: Task :: Worker(u) in s.threads ==> s.threads[Worker(u)].pc.Finished?
    requires forall u: Task :: Handler(u) in s.threads ==> s.threads[Handler(u)].pc.Return?
    ensures !Occupies(s, t, a)
  {
  }

  lemma NoSlotAtRest(c: Config, s: System, a: int)
    requires GoodConfig(c) && Reachable(c, s) && forall tid :: tid in s.threads ==> Ended(s, tid)
    ensures InflightOf(s, a) == 0
  {
    ReachableInv(c, s);
    SlotAccounting(c, s, a);
    EndedMeansAtRest(c, s);
    forall u: Task
      ensures u !in Holding(s.loc, a)
    {
      NobodyOccupies(s, u, a);
    }
    assert Holding(s.loc, a) == {};
  }

  /** At rest, a pool that has refused nothing has left nothing behind: every accepted message of
      every activity has been completed. */
  lemma RestWithoutRefusals(c: Config, s: System, t: Task)
    requires GoodConfig(c) && Reachable(c, s) && s.hist.refusals == 0
    requires forall tid :: tid in s.threads ==> Ended(s, tid)
    requires Returned(s, t, true)
    ensures Completed(s, t)
  {
    var a := t.activityId;
    ReachableInv(c, s);
    EndedMeansAtRest(c, s);
    NoSlotAtRest(c, s, a);
    WorkConservingFifo(c, s, a);
    RestConservation(c, s, t);
  }
}
