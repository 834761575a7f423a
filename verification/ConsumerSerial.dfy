/** With a limit of one, an activity's messages are processed one at a time in acceptance order. */
module ConsumerSerial {
  import opened ActivityStates
  import opened Collections
  import opened ConsumerSystem
  import opened ConsumerLocks
  import opened ConsumerAccounts
  import opened ConsumerSafety
  import opened ConsumerRuns
  import opened ConsumerTheorems
  import opened ConsumerOrder

  /** Slot holders of `a` whose processing has not begun. */
  ghost function Pending(s: System, a: int): set<Task> {
    set t | t in Holding(s.loc, a) && !Begun(s, t)
  }

  /** Everything that got a slot has begun, except possibly the last one. */
  ghost predicate InStep(reserved: seq<Task>, started: seq<Task>, pending: set<Task>) {
    if pending == {} then reserved == started
    else |reserved| == |started| + 1 && reserved[..|started|] == started && pending == {reserved[|started|]}
  }

  ghost predicate Serial(s: System, a: int) {
    InStep(Log(s.hist.reserved, a), Log(s.hist.started, a), Pending(s, a))
  }

  ghost predicate AllSerial(s: System) {
    forall a: int :: Serial(s, a)
  }

  lemma AtMostOneHolder(c: Config, s: System, a: int)
    requires GoodConfig(c) && c.perActivityLimit == 1 && Inv(c, s)
    ensures forall t, u :: t in Holding(s.loc, a) && u in Holding(s.loc, a) ==> t == u
  {
    assert Agrees(c, SlotAt(SlotsOf(s.store), a), s.loc, a);
    forall t, u | t in Holding(s.loc, a) && u in Holding(s.loc, a)
      ensures t == u
    {
      SubsetSize({t, u}, Holding(s.loc, a));
    }
  }

  // ---------------------------------------------------------------- how slot holders change

  lemma HoldingUpdate(loc: map<Task, Loc>, t: Task, l: Loc, a: int)
    ensures Holding(loc[t := l], a) ==
            if Holds(l) && t.activityId == a then Holding(loc, a) + {t} else Holding(loc, a) - {t}
  {
  }

  lemma HoldingDone(loc: map<Task, Loc>, u: Task, next: seq<Task>, a: int)
    requires u in loc && u !in next && forall t :: t in next ==>
             t in loc && loc[t].InMailbox? && t.activityId == u.activityId
    ensures Holding(DoneLoc(loc, u, next), a) ==
            if a == u.activityId then Holding(loc, a) - {u} + Elements(next) else Holding(loc, a)
  {
    DoneLocAt(loc, u, next);
  }

  lemma SubmitKeepsHolding(s: System, step: Step, a: int, c: Config)
    requires GoodConfig(c) && Homes(s) && Enabled(c, s, step) && (step.SubmitDirect? || step.SubmitNext?)
    ensures Holding(Apply(c, s, step).loc, a) == Holding(s.loc, a)
  {
    if step.SubmitDirect? {
      SubmitDirectLawful(s, step.t, step.accept);
      HoldingUpdate(s.loc, step.t, InPool, a);
    } else {
      var t := s.threads[Worker(step.t)].pc.batch[0];
      SubmitNextLawful(s, step.t, s.threads[Worker(step.t)].pc.batch, step.accept);
      HoldingUpdate(s.loc, t, InPool, a);
    }
  }

  lemma HoldingKept(c: Config, s: System, step: Step, a: int)
    requires GoodConfig(c) && Homes(s) && Enabled(c, s, step) && !IsSection(step)
    ensures Holding(Apply(c, s, step).loc, a) == Holding(s.loc, a)
  {
    if step.SubmitDirect? || step.SubmitNext? {
      SubmitKeepsHolding(s, step, a, c);
    } else if step.StartHandle? {
      FreshMessage(s, step.t);
      HoldingUpdate(s.loc, step.t, Rejected, a);
    } else if IsMove(step) {
      MovesChangeNothing(c, s, step);
    }
  }

  lemma PendingKept(c: Config, s: System, step: Step, a: int)
    requires GoodConfig(c) && Homes(s) && Enabled(c, s, step) && !IsSection(step) && !step.Run?
    ensures Pending(Apply(c, s, step), a) == Pending(s, a)
  {
    HoldingKept(c, s, step, a);
    forall t: Task { BegunKept(c, s, step, t); }
  }

  // ---------------------------------------------------------------- the three steps that matter

  lemma RunPending(c: Config, s: System, t: Task, a: int)
    requires GoodConfig(c) && Homes(s) && Enabled(c, s, Run(t))
    ensures Pending(Apply(c, s, Run(t)), a) == Pending(s, a) - {t}
    ensures t in Pending(s, t.activityId)
  {
    assert Fits(s.loc, Worker(t), s.threads[Worker(t)].pc);
    assert forall x: Task :: Begun(Apply(c, s, Run(t)), x) <==> Begun(s, x) || x == t;
  }

  lemma RunKeepsSerial(c: Config, s: System, t: Task, a: int)
    requires GoodConfig(c) && Homes(s) && Enabled(c, s, Run(t)) && Serial(s, a)
    ensures Serial(Apply(c, s, Run(t)), a)
  {
    RunPending(c, s, t, a);
    var reserved, started := Log(s.hist.reserved, a), Log(s.hist.started, a);
    if a == t.activityId {
      assert Pending(s, a) == {t};
      assert reserved == started + [t];
    } else if Pending(s, a) != {} {
      assert t !in Pending(s, a);
    }
  }

  /** Slots change hands among tasks that have not begun and tasks that have. */
  lemma PendingAfter(s: System, s': System, a: int, gone: set<Task>, come: set<Task>)
    requires forall t: Task :: Begun(s', t) <==> Begun(s, t)
    requires Holding(s'.loc, a) == Holding(s.loc, a) - gone + come
    requires (forall t :: t in gone ==> Begun(s, t)) && (forall t :: t in come ==> !Begun(s, t))
    ensures Pending(s', a) == Pending(s, a) + come
  {
  }

  /** A handler's critical section either gives its message a slot, or changes no slot holder. */
  lemma HandleHolding(c: Config, s: System, t: Task, now: int, o: nat, a: int)
    requires t !in s.loc && o in s.store.objs
    ensures var e := HandleSection(c, s, t, now, o);
            if t in Holding(e.loc, a) then
              && a == t.activityId && Holding(e.loc, a) == Holding(s.loc, a) + {t}
              && Log(e.hist.reserved, a) == Log(s.hist.reserved, a) + [t]
            else
              Holding(e.loc, a) == Holding(s.loc, a) && Log(e.hist.reserved, a) == Log(s.hist.reserved, a)
  {
    HoldingUpdate(s.loc, t, HeldDirect, a);
    HoldingUpdate(s.loc, t, InMailbox, a);
    HoldingUpdate(s.loc, t, Rejected, a);
  }

  lemma HandlePending(c: Config, s: System, t: Task, a: int)
    requires GoodConfig(c) && Homes(s) && Enabled(c, s, HandleCritical(t))
    ensures var s' := Apply(c, s, HandleCritical(t));
            if t in Holding(s'.loc, a) then
              a == t.activityId && Holding(s'.loc, a) == Holding(s.loc, a) + {t} && t !in Holding(s.loc, a) &&
              Pending(s', a) == Pending(s, a) + {t} && Log(s'.hist.reserved, a) == Log(s.hist.reserved, a) + [t]
            else
              Pending(s', a) == Pending(s, a) && Log(s'.hist.reserved, a) == Log(s.hist.reserved, a)
  {
    var pc := s.threads[Handler(t)].pc;
    var s' := Apply(c, s, HandleCritical(t));
    assert t !in s.loc by { assert Fits(s.loc, Handler(t), pc); }
    assert !Begun(s, t) by {
      assert Worker(t) in s.threads ==> Fits(s.loc, Worker(t), s.threads[Worker(t)].pc);
    }
    HandleHolding(c, s, t, pc.op.now, pc.obj, a);
    forall x: Task { BegunKept(c, s, HandleCritical(t), x); }
    PendingAfter(s, s', a, {}, if t in Holding(s'.loc, a) then {t} else {});
  }

  lemma HandleKeepsSerial(c: Config, s: System, t: Task, a: int)
    requires GoodConfig(c) && c.perActivityLimit == 1 && Inv(c, s) && Enabled(c, s, HandleCritical(t)) && Serial(s, a)
    ensures Serial(Apply(c, s, HandleCritical(t)), a)
  {
    var s' := Apply(c, s, HandleCritical(t));
    LogsKept(c, s, HandleCritical(t));
    HandlePending(c, s, t, a);
    if t in Holding(s'.loc, a) {
      InvPreserved(c, s, HandleCritical(t));
      AtMostOneHolder(c, s', a);
      assert Pending(s, a) == {};
    }
  }

  /** onTaskDone takes the slot of `u` and gives slots to `next`. */
  lemma DonePending(s: System, s': System, u: Task, a: int, next: seq<Task>)
    requires Homes(s) && u in s.loc && s.loc[u].InPool? && Begun(s, u)
    requires forall t :: t in next ==> t != u && t in s.loc && s.loc[t].InMailbox? && t.activityId == u.activityId
    requires s'.loc == DoneLoc(s.loc, u, next) && forall t: Task :: Begun(s', t) <==> Begun(s, t)
    ensures if a == u.activityId then
              Elements(next) <= Holding(s'.loc, a) && Pending(s', a) == Pending(s, a) + Elements(next)
            else
              Pending(s', a) == Pending(s, a)
  {
    HoldingDone(s.loc, u, next, a);
    WaitingNotBegun(s, next);
    if a == u.activityId {
      PendingAfter(s, s', a, {u}, Elements(next));
    } else {
      PendingAfter(s, s', a, {}, {});
    }
  }

  lemma DoneApply(c: Config, s: System, u: Task, now: int, next: seq<Task>)
    requires GoodConfig(c) && Enabled(c, s, DoneCritical(u, now))
    requires next == Finish(s.store.objs[s.threads[Worker(u)].pc.obj], c.perActivityLimit, now).1
    ensures var s' := Apply(c, s, DoneCritical(u, now));
            s'.loc == DoneLoc(s.loc, u, next) && s'.hist == Reserve(s.hist, u.activityId, next)
  {
  }

  lemma DoneFacts(c: Config, s: System, u: Task, now: int, o: nat)
    requires GoodConfig(c) && Inv(c, s) && Worker(u) in s.threads && s.threads[Worker(u)].pc == HaveState(Done, o)
    ensures u in s.loc && s.loc[u].InPool? && Begun(s, u) && o in s.store.objs
    ensures var next := Finish(s.store.objs[o], c.perActivityLimit, now).1;
            Distinct(next) && forall t :: t in next ==>
              t != u && t in s.loc && s.loc[t].InMailbox? && t.activityId == u.activityId
  {
    assert Fits(s.loc, Worker(u), s.threads[Worker(u)].pc);
    SectionCurrent(c, s, Worker(u));
    DoneDrains(c, s, u, now, o);
  }

  lemma WaitingNotBegun(s: System, tasks: seq<Task>)
    requires Homes(s) && forall t :: t in tasks ==> t in s.loc && s.loc[t].InMailbox?
    ensures forall t :: t in tasks ==> !Begun(s, t)
  {
    forall t | t in tasks ensures !Begun(s, t) {
      assert Worker(t) in s.threads ==> Fits(s.loc, Worker(t), s.threads[Worker(t)].pc);
    }
  }

  lemma AtMostOne(next: seq<Task>, holders: set<Task>)
    requires Distinct(next) && Elements(next) <= holders && forall t, u :: t in holders && u in holders ==> t == u
    ensures next == [] || (next == [next[0]] && Elements(next) == {next[0]})
  {
    if next != [] {
      DistinctSize(next);
      assert next[0] in Elements(next);
      SubsetSize(Elements(next), {next[0]});
    }
  }

  ghost predicate AtMostOneIn(holders: set<Task>) {
    forall t, u :: t in holders && u in holders ==> t == u
  }

  lemma DoneInStep(s: System, s': System, u: Task, a: int, next: seq<Task>)
    requires AtMostOneIn(Holding(s.loc, a)) && AtMostOneIn(Holding(s'.loc, a)) && Serial(s, a) && Distinct(next)
    requires s'.hist == Reserve(s.hist, u.activityId, next) && a == u.activityId
    requires u in Holding(s.loc, a) && Begun(s, u)
    requires Elements(next) <= Holding(s'.loc, a) && Pending(s', a) == Pending(s, a) + Elements(next)
    ensures Serial(s', a)
  {
    assert Pending(s, a) == {};
    AtMostOne(next, Holding(s'.loc, a));
    ReservedNext(Log(s.hist.reserved, a), Log(s.hist.started, a), next);
  }

  lemma ReservedNext(reserved: seq<Task>, started: seq<Task>, next: seq<Task>)
    requires InStep(reserved, started, {}) && (next == [] || (next == [next[0]] && Elements(next) == {next[0]}))
    ensures InStep(reserved + next, started, Elements(next))
  {
    if next == [] {
      assert reserved + next == reserved;
    } else {
      assert next[0] in Elements(next);
    }
  }

  lemma DoneSerialOwn(c: Config, s: System, s': System, u: Task, next: seq<Task>)
    requires GoodConfig(c) && c.perActivityLimit == 1 && Inv(c, s) && Inv(c, s')
    requires Serial(s, u.activityId) && Distinct(next)
    requires u in s.loc && s.loc[u].InPool? && Begun(s, u)
    requires forall t :: t in next ==> t != u && t in s.loc && s.loc[t].InMailbox? && t.activityId == u.activityId
    requires s'.loc == DoneLoc(s.loc, u, next) && s'.hist == Reserve(s.hist, u.activityId, next)
    requires forall t: Task :: Begun(s', t) <==> Begun(s, t)
    ensures Serial(s', u.activityId)
  {
    DonePending(s, s', u, u.activityId, next);
    AtMostOneHolder(c, s, u.activityId);
    AtMostOneHolder(c, s', u.activityId);
    DoneInStep(s, s', u, u.activityId, next);
  }

  lemma DoneSerialOther(s: System, s': System, u: Task, a: int, next: seq<Task>)
    requires Homes(s) && Serial(s, a) && a != u.activityId
    requires u in s.loc && s.loc[u].InPool? && Begun(s, u)
    requires forall t :: t in next ==> t != u && t in s.loc && s.loc[t].InMailbox? && t.activityId == u.activityId
    requires s'.loc == DoneLoc(s.loc, u, next) && s'.hist == Reserve(s.hist, u.activityId, next)
    requires forall t: Task :: Begun(s', t) <==> Begun(s, t)
    ensures Serial(s', a)
  {
    DonePending(s, s', u, a, next);
  }

  lemma DoneKeepsSerial(c: Config, s: System, u: Task, now: int, a: int)
    requires GoodConfig(c) && c.perActivityLimit == 1 && Inv(c, s)
    requires Enabled(c, s, DoneCritical(u, now)) && Serial(s, a)
    ensures Serial(Apply(c, s, DoneCritical(u, now)), a)
  {
    var o := s.threads[Worker(u)].pc.obj;
    DoneFacts(c, s, u, now, o);
    var next := Finish(s.store.objs[o], c.perActivityLimit, now).1;
    DoneApply(c, s, u, now, next);
    forall x: Task { BegunKept(c, s, DoneCritical(u, now), x); }
    if a == u.activityId {
      InvPreserved(c, s, DoneCritical(u, now));
      DoneSerialOwn(c, s, Apply(c, s, DoneCritical(u, now)), u, next);
    } else {
      DoneSerialOther(s, Apply(c, s, DoneCritical(u, now)), u, a, next);
    }
  }

  lemma SerialPreserved(c: Config, s: System, step: Step)
    requires GoodConfig(c) && c.perActivityLimit == 1 && Inv(c, s)
    requires Enabled(c, s, step) && Orderly(c, s) && AllSerial(s)
    requires Apply(c, s, step).hist.refusals == 0
    ensures AllSerial(Apply(c, s, step))
  {
    var s' := Apply(c, s, step);
    LogsKept(c, s, step);
    NoRollbacksKept(c, s, step);
    forall a: int
      ensures Serial(s', a)
    {
      assert Serial(s, a);
      if step.Run? {
        RunKeepsSerial(c, s, step.t, a);
      } else if step.HandleCritical? {
        HandleKeepsSerial(c, s, step.t, a);
      } else if step.DoneCritical? {
        DoneKeepsSerial(c, s, step.t, step.now, a);
      } else {
        PendingKept(c, s, step, a);
      }
    }
  }

  lemma {:induction false} SerialAlways(c: Config, s: System, run: seq<Step>)
    requires GoodConfig(c) && c.perActivityLimit == 1 && Inv(c, s) && IsRun(c, s, run) && Orderly(c, s) && AllSerial(s)
    requires After(c, s, run).hist.refusals == 0
    ensures AllSerial(After(c, s, run))
    decreases |run|
  {
    if run == [] {
    } else {
      RefusalsNeverDrop(c, Apply(c, s, run[0]), run[1..]);
      SerialPreserved(c, s, run[0]);
      OrderlyPreserved(c, s, run[0]);
      InvPreserved(c, s, run[0]);
      SerialAlways(c, Apply(c, s, run[0]), run[1..]);
    }
  }

  lemma {:induction false} RefusalsNeverDrop(c: Config, s: System, run: seq<Step>)
    requires GoodConfig(c) && IsRun(c, s, run)
    ensures After(c, s, run).hist.refusals >= s.hist.refusals
    decreases |run|
  {
    if run == [] {
    } else {
      LogsKept(c, s, run[0]);
      RefusalsNeverDrop(c, Apply(c, s, run[0]), run[1..]);
    }
  }

  lemma RunsAlone(c: Config, s: System, t: Task, u: Task)
    requires GoodConfig(c) && c.perActivityLimit == 1 && Inv(c, s) && Enabled(c, s, Run(t))
    requires u.activityId == t.activityId && Begun(s, u)
    ensures Completed(s, u)
  {
    assert Fits(s.loc, Worker(t), s.threads[Worker(t)].pc);
    assert t in Holding(s.loc, t.activityId) && !Begun(s, t);
    AtMostOneHolder(c, s, t.activityId);
    LocIsReal(c, s, u);
    assert InWork(s, u) ==> u in Holding(s.loc, t.activityId);
  }

  lemma SerialReachable(c: Config, s: System, a: int)
    requires GoodConfig(c) && c.perActivityLimit == 1 && Reachable(c, s) && s.hist.refusals == 0
    ensures Serial(s, a) && StartLog(s, a)
  {
    var run: seq<Step> :| IsRun(c, Initial(), run) && After(c, Initial(), run) == s;
    InvInitially(c);
    assert Orderly(c, Initial()) && AllSerial(Initial());
    SerialAlways(c, Initial(), run);
    StartLogsAlways(c, Initial(), run);
  }

  /** SERIAL PROCESSING. With limit one and no refusal so far, process has been called in exactly
      acceptance order, and it is called again only when every earlier call has been completed. */
  lemma SerialInAcceptanceOrder(c: Config, s: System, t: Task)
    requires GoodConfig(c) && c.perActivityLimit == 1 && Reachable(c, s) && s.hist.refusals == 0
    ensures Log(s.hist.started, t.activityId) <= Log(s.hist.accepted, t.activityId)
    ensures Enabled(c, s, Run(t)) ==>
              && t !in Log(s.hist.started, t.activityId)
              && forall u :: u in Log(s.hist.started, t.activityId) ==> Completed(s, u)
  {
    SerialReachable(c, s, t.activityId);
    WorkConservingFifo(c, s, t.activityId);
    ReachableInv(c, s);
    if Enabled(c, s, Run(t)) {
      forall u | u in Log(s.hist.started, t.activityId)
        ensures Completed(s, u)
      {
        RunsAlone(c, s, t, u);
      }
    }
  }
}
