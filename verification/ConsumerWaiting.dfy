/**
  Stranding over runs: exactly when an activity of which no task holds a slot has tasks waiting. Nothing
  but a later delivery looks at such a mailbox again.
 */
module ConsumerWaiting {
  import opened ActivityStates
  import opened ConsumerSystem
  import opened ConsumerLocks
  import opened ConsumerAccounts
  import opened ConsumerSafety
  import opened ConsumerRuns
  import opened ConsumerTheorems
  import opened ConsumerOrder
  import opened ConsumerProgress

  /** A release of a slot of `a` is onTaskDone, the return of a refused batch, or the rollback of a
      refused direct submit. Did the last one leave somebody waiting without looking at him? */
  ghost predicate Left(c: Config, s: System, step: Step, a: int, before: bool)
    requires GoodConfig(c) && Enabled(c, s, step)
  {
    if step.DoneCritical? && step.t.activityId == a then false
    else if step.RollbackBatchCritical? && step.t.activityId == a then true
    else if step.RollbackDirectCritical? && step.t.activityId == a then MailboxOf(s, a) != []
    else before
  }

  ghost predicate LastLeft(c: Config, s: System, run: seq<Step>, a: int, before: bool)
    requires GoodConfig(c) && IsRun(c, s, run)
    decreases |run|
  {
    if run == [] then before
    else LastLeft(c, Apply(c, s, run[0]), run[1..], a, Left(c, s, run[0], a, before))
  }

  ghost predicate Told(s: System, a: int, left: bool) {
    InflightOf(s, a) == 0 ==> (MailboxOf(s, a) != [] <==> left)
  }

  // ---------------------------------------------------------------- one step

  /** What a critical section makes of the slot of its activity. */
  function SectionSlot(c: Config, s: System, step: Step): Slot
    requires IsSection(step) && InSection(s, Mover(step))
    requires step.HandleCritical? ==> s.threads[Mover(step)].pc.op.Handle?
    requires step.RollbackBatchCritical? ==> s.threads[Mover(step)].pc.op.RollbackBatch?
  {
    var pc := s.threads[Mover(step)].pc;
    var slot := s.store.objs[pc.obj];
    match step
    case HandleCritical(t) => Admit(slot, c, t, pc.op.now).0
    case RollbackDirectCritical(_, now) => ReleaseOne(slot, now)
    case RollbackBatchCritical(_, now) => ReleaseBatch(slot, pc.op.tasks, now)
    case DoneCritical(_, now) => Finish(slot, c.perActivityLimit, now).0
  }

  lemma SectionStore(c: Config, s: System, step: Step)
    requires GoodConfig(c) && Enabled(c, s, step) && IsSection(step)
    ensures Apply(c, s, step).store == SetSlot(s.store, s.threads[Mover(step)].pc.obj, SectionSlot(c, s, step))
  {
  }

  lemma SlotSeen(s: System, a: int)
    requires GoodStore(s.store)
    ensures InflightOf(s, a) == SlotAt(SlotsOf(s.store), a).inflight
    ensures MailboxOf(s, a) == SlotAt(SlotsOf(s.store), a).mailbox
  {
  }

  /** A section changes the slot of its own activity and no other. */
  lemma SectionSeen(c: Config, s: System, step: Step, a: int)
    requires GoodConfig(c) && Inv(c, s) && Enabled(c, s, step) && IsSection(step)
    ensures var s' := Apply(c, s, step);
            if a == step.t.activityId then
              InflightOf(s', a) == SectionSlot(c, s, step).inflight &&
                MailboxOf(s', a) == SectionSlot(c, s, step).mailbox
            else
              InflightOf(s', a) == InflightOf(s, a) && MailboxOf(s', a) == MailboxOf(s, a)
  {
    SectionCurrent(c, s, Mover(step));
    SectionStore(c, s, step);
    SectionSlotSeen(s, Apply(c, s, step), step.t.activityId, a, SectionSlot(c, s, step));
  }

  lemma SectionSlotSeen(s: System, s': System, b: int, a: int, slot: Slot)
    requires GoodStore(s.store) && b in s.store.states && s'.store == SetSlot(s.store, s.store.states[b], slot)
    ensures if a == b then InflightOf(s', a) == slot.inflight && MailboxOf(s', a) == slot.mailbox
            else InflightOf(s', a) == InflightOf(s, a) && MailboxOf(s', a) == MailboxOf(s, a)
  {
    SectionSlots(s.store, b, slot);
    SlotSeen(s, a);
    SlotSeen(s', a);
  }

  lemma OtherSeen(c: Config, s: System, step: Step, a: int)
    requires GoodConfig(c) && Inv(c, s) && Enabled(c, s, step) && !IsSection(step)
    ensures var s' := Apply(c, s, step); InflightOf(s', a) == InflightOf(s, a) && MailboxOf(s', a) == MailboxOf(s, a)
  {
    InvPreserved(c, s, step);
    OtherSlots(c, s, step, a);
    SlotSeen(s, a);
    SlotSeen(Apply(c, s, step), a);
  }

  lemma HandleTells(slot: Slot, c: Config, t: Task, now: int)
    requires GoodConfig(c) && slot.inflight >= 0
    ensures Admit(slot, c, t, now).0.inflight > 0
  {
  }

  lemma DoneTells(slot: Slot, limit: int, now: int)
    requires limit > 0
    ensures Finish(slot, limit, now).0.inflight == 0 ==> Finish(slot, limit, now).0.mailbox == []
  {
    FinishRecovers(slot, limit, now);
  }

  lemma OwnSectionTells(c: Config, s: System, step: Step, left: bool)
    requires GoodConfig(c) && Inv(c, s) && Enabled(c, s, step) && IsSection(step)
    ensures Told(Apply(c, s, step), step.t.activityId, Left(c, s, step, step.t.activityId, left))
  {
    var tid := Mover(step);
    var pc := s.threads[tid].pc;
    SectionCurrent(c, s, tid);
    SectionSeen(c, s, step, step.t.activityId);
    if step.HandleCritical? {
      HandleTells(s.store.objs[pc.obj], c, step.t, pc.op.now);
    } else if step.DoneCritical? {
      DoneTells(s.store.objs[pc.obj], c.perActivityLimit, step.now);
    } else if step.RollbackBatchCritical? {
      assert Fits(s.loc, tid, pc);
      assert (pc.op.tasks + s.store.objs[pc.obj].mailbox)[0] == pc.op.tasks[0];
    }
  }

  lemma StepTells(c: Config, s: System, step: Step, a: int, left: bool)
    requires GoodConfig(c) && Inv(c, s) && Enabled(c, s, step) && Told(s, a, left)
    ensures Told(Apply(c, s, step), a, Left(c, s, step, a, left))
  {
    if !IsSection(step) {
      OtherSeen(c, s, step, a);
    } else if step.t.activityId == a {
      OwnSectionTells(c, s, step, left);
    } else {
      SectionSeen(c, s, step, a);
    }
  }

  // ---------------------------------------------------------------- runs

  lemma {:induction false} RunTells(c: Config, s: System, run: seq<Step>, a: int, left: bool)
    requires GoodConfig(c) && Inv(c, s) && IsRun(c, s, run) && Told(s, a, left)
    ensures Told(After(c, s, run), a, LastLeft(c, s, run, a, left))
    decreases |run|
  {
    if run == [] {
    } else {
      StepTells(c, s, run[0], a, left);
      InvPreserved(c, s, run[0]);
      RunTells(c, Apply(c, s, run[0]), run[1..], a, Left(c, s, run[0], a, left));
    }
  }

  lemma WaiterReturned(c: Config, s: System, t: Task)
    requires GoodConfig(c) && Inv(c, s) && t in MailboxOf(s, t.activityId)
    requires forall tid :: tid in s.threads ==> ConsumerProgress.Ended(s, tid)
    ensures Returned(s, t, true)
  {
    MailboxIsReal(c, s, t);
    assert Owned(s.threads, s.loc, t);
    assert Fits(s.loc, Handler(t), s.threads[Handler(t)].pc) && ConsumerProgress.Ended(s, Handler(t));
  }

  lemma WaitingAtRest(c: Config, s: System, a: int)
    requires GoodConfig(c) && Reachable(c, s) && forall tid :: tid in s.threads ==> ConsumerProgress.Ended(s, tid)
    ensures MailboxOf(s, a) != [] <==>
            exists t: Task :: t.activityId == a && Returned(s, t, true) && !Completed(s, t)
  {
    ReachableInv(c, s);
    EndedMeansAtRest(c, s);
    forall t: Task | t.activityId == a && Returned(s, t, true)
      ensures !Completed(s, t) <==> t in MailboxOf(s, a)
    {
      RestConservation(c, s, t);
    }
    if MailboxOf(s, a) != [] {
      var t := MailboxOf(s, a)[0];
      MailboxOwn(c, s, a);
      WaiterReturned(c, s, t);
    }
  }

  /** STRANDING, EXACTLY. After any run, an activity of which no task holds a slot has tasks waiting if
      and only if the last release of a slot of it was a rollback that left somebody waiting. */
  lemma StrandedIff(c: Config, run: seq<Step>, s: System, a: int)
    requires GoodConfig(c) && IsRun(c, Initial(), run) && After(c, Initial(), run) == s && InflightOf(s, a) == 0
    ensures MailboxOf(s, a) != [] <==> LastLeft(c, Initial(), run, a, false)
  {
    InvInitially(c);
    RunTells(c, Initial(), run, a, false);
  }

  /** In particular at rest: some accepted message of the activity is not completed in exactly that case. */
  lemma StrandedAtRestIff(c: Config, run: seq<Step>, s: System, a: int)
    requires GoodConfig(c) && IsRun(c, Initial(), run) && After(c, Initial(), run) == s
    requires forall tid :: tid in s.threads ==> ConsumerProgress.Ended(s, tid)
    ensures LastLeft(c, Initial(), run, a, false) <==>
            exists t: Task :: t.activityId == a && Returned(s, t, true) && !Completed(s, t)
  {
    NoSlotAtRest(c, s, a);
    StrandedIff(c, run, s, a);
    WaitingAtRest(c, s, a);
  }
}
