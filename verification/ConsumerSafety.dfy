/**
  The inductive invariant of the consumer and what follows from it for every run: no message is
  lost, duplicated or processed after being refused; slots are counted exactly; the collector never
  removes or replaces a state somebody still needs.
 */
module ConsumerSafety {
  import opened ActivityStates
  import opened Collections
  import opened ConsumerSystem
  import opened ConsumerLocks
  import opened ConsumerAccounts
  import opened Options

  // ---------------------------------------------------------------- threads and tasks

  /** The batch a worker carries between draining and submitting or returning it. */
  function Carried(pc: PC): seq<Task> {
    if pc.Submitting? then pc.batch
    else if OpOf(pc).Some? && OpOf(pc).value.RollbackBatch? then OpOf(pc).value.tasks
    else []
  }

  /** Locations of a message that HandleMessage accepted. */
  predicate Taken(l: Loc) {
    l.InMailbox? || l.InBatch? || l.InPool? || l.Processed?
  }

  ghost predicate CarriesOwn(loc: map<Task, Loc>, u: Task, batch: seq<Task>) {
    Distinct(batch) && forall t :: t in batch ==> t in loc && loc[t] == InBatch(u) && t.activityId == u.activityId
  }

  ghost predicate HandlerAt(loc: map<Task, Loc>, t: Task, pc: PC) {
    var op := OpOf(pc);
    if op.Some? then
      (op.value.Handle? && t !in loc) || (op.value.RollbackDirect? && t in loc && loc[t].HeldDirect?)
    else
      t in loc && ((pc.Reserved? && loc[t].HeldDirect?) ||
        (pc.Return? && if pc.ok then Taken(loc[t]) else loc[t].Rejected?))
  }

  ghost predicate WorkerAt(loc: map<Task, Loc>, u: Task, pc: PC) {
    var op := OpOf(pc);
    && u in loc
    && (if op.Some? then
          (op.value.Done? && loc[u].InPool?) || (op.value.RollbackBatch? && loc[u].Processed? && Carried(pc) != [])
        else
          (pc.Queued? && loc[u].InPool?) || (pc.Running? && loc[u].InPool?) ||
          (pc.Submitting? && loc[u].Processed? && Carried(pc) != []) || (pc.Finished? && loc[u].Processed?))
    && CarriesOwn(loc, u, Carried(pc))
  }

  /** The place of a thread fits the location of its task. Panicked fits nothing. */
  ghost predicate Fits(loc: map<Task, Loc>, tid: Tid, pc: PC) {
    match tid
    case Handler(t) => HandlerAt(loc, t, pc)
    case Worker(u) => WorkerAt(loc, u, pc)
    case Reader(_, _) => pc.PeekEnd? || OpOf(pc) == Some(Peek)
    case Collector(_) => pc.GcWantShard? || pc.GcScan? || pc.GcWantState? || pc.GcHaveState? || pc.GcEnd?
  }

  /** Every task with a location has the thread that is responsible for it. */
  ghost predicate Owned(threads: map<Tid, Thread>, loc: map<Task, Loc>, t: Task)
    requires t in loc
  {
    && Handler(t) in threads
    && (loc[t].InPool? || loc[t].Processed? ==> Worker(t) in threads)
    && (loc[t].InBatch? ==> Worker(loc[t].drainer) in threads && t in Carried(threads[Worker(loc[t].drainer)].pc))
  }

  ghost predicate Homes(s: System) {
    && (forall tid :: tid in s.threads ==> Fits(s.loc, tid, s.threads[tid].pc))
    && (forall t :: t in s.loc ==> Owned(s.threads, s.loc, t))
  }

  /** How thread `tid` may move task `t`: its own tasks, or tasks nobody else's place depends on. */
  ghost predicate MayMove(s: System, tid: Tid, e: Effect, t: Task)
    requires t in e.loc
  {
    (t in s.loc && e.loc[t] == s.loc[t]) ||
    (&& (Handler(t) == tid || (t in s.loc && Taken(s.loc[t]) && Taken(e.loc[t])))
     && (t in s.loc && s.loc[t].InBatch? ==> tid == Worker(s.loc[t].drainer))
     && (t in s.loc && (s.loc[t].InPool? || s.loc[t].Processed?) ==> tid == Worker(t)))
  }

  ghost predicate WellSpawned(s: System, e: Effect) {
    e.spawn.Some? ==>
      var t := e.spawn.value;
      Worker(t) !in s.threads && t in e.loc && e.loc[t].InPool?
  }

  lemma FitsKept(s: System, tid: Tid, e: Effect)
    requires Homes(s) && s.loc.Keys <= e.loc.Keys
    requires forall t :: t in e.loc ==> MayMove(s, tid, e, t)
    requires WellSpawned(s, e) && Fits(e.loc, tid, e.pc)
    ensures forall x :: x in Commit(s, tid, e).threads ==> Fits(e.loc, x, Commit(s, tid, e).threads[x].pc)
  {
    forall x | x in s.threads && x != tid
      ensures Fits(e.loc, x, s.threads[x].pc)
    {
      var pc := s.threads[x].pc;
      assert Fits(s.loc, x, pc);
      if x.Handler? {
        assert x.task in e.loc ==> MayMove(s, tid, e, x.task);
      } else if x.Worker? {
        assert MayMove(s, tid, e, x.task);
        forall t | t in Carried(pc)
          ensures e.loc[t] == InBatch(x.task)
        {
          assert MayMove(s, tid, e, t);
        }
      }
    }
  }

  /** A task that moves gets a new owner: the mover's batch, or the worker just spawned. */
  ghost predicate Delivered(s: System, tid: Tid, e: Effect, t: Task)
    requires t in e.loc
  {
    && (e.loc[t].InBatch? && tid == Worker(e.loc[t].drainer) ==> t in Carried(e.pc))
    && (t !in s.loc || e.loc[t] != s.loc[t] ==>
          && (e.loc[t].InBatch? ==> tid == Worker(e.loc[t].drainer))
          && (e.loc[t].InPool? || e.loc[t].Processed? ==> tid == Worker(t) || e.spawn == Some(t)))
  }

  ghost predicate Lawful(s: System, tid: Tid, e: Effect) {
    && s.loc.Keys <= e.loc.Keys
    && (forall t :: t in e.loc ==> MayMove(s, tid, e, t) && Delivered(s, tid, e, t))
    && WellSpawned(s, e)
    && Fits(e.loc, tid, e.pc)
  }

  lemma HomesKept(s: System, tid: Tid, e: Effect)
    requires Homes(s) && Lawful(s, tid, e)
    ensures Homes(Commit(s, tid, e))
  {
    FitsKept(s, tid, e);
    var threads' := Commit(s, tid, e).threads;
    forall t | t in e.loc
      ensures Owned(threads', e.loc, t)
    {
      assert MayMove(s, tid, e, t) && Delivered(s, tid, e, t);
      if t in s.loc {
        assert Owned(s.threads, s.loc, t);
      }
    }
  }

  // ---------------------------------------------------------------- accounts

  /** The shard maps as one map from activity to the value of its state. */
  function SlotsOf(st: Store): map<int, Slot>
    requires forall a :: a in st.states ==> st.states[a] in st.objs
  {
    map a | a in st.states :: st.objs[st.states[a]]
  }

  ghost predicate AllAgree(c: Config, st: Store, loc: map<Task, Loc>)
    requires GoodStore(st)
  {
    forall a: int :: Agrees(c, SlotAt(SlotsOf(st), a), loc, a)
  }

  /** A critical section on the state object of `a` changes only `a`'s slot. */
  lemma SectionSlots(st: Store, a: int, slot: Slot)
    requires GoodStore(st) && a in st.states
    ensures GoodStore(SetSlot(st, st.states[a], slot))
    ensures SlotsOf(SetSlot(st, st.states[a], slot)) == SlotsOf(st)[a := slot]
  {
    var st' := SetSlot(st, st.states[a], slot);
    assert forall b :: b in st.states && b != a ==> st'.objs[st.states[b]] == st.objs[st.states[b]];
    assert SlotsOf(st').Keys == SlotsOf(st)[a := slot].Keys;
  }

  /** It is enough to look at the one activity whose tasks move. */
  lemma OneActivity(c: Config, s: System, e: Effect, a: int)
    requires GoodStore(s.store) && GoodStore(e.store) && AllAgree(c, s.store, s.loc)
    requires forall b: int :: b != a ==> SlotAt(SlotsOf(e.store), b) == SlotAt(SlotsOf(s.store), b)
    requires forall b: int :: b != a ==> SameFor(s.loc, e.loc, b)
    requires Agrees(c, SlotAt(SlotsOf(e.store), a), e.loc, a)
    ensures AllAgree(c, e.store, e.loc)
  {
    forall b: int
      ensures Agrees(c, SlotAt(SlotsOf(e.store), b), e.loc, b)
    {
      if b != a {
        assert Agrees(c, SlotAt(SlotsOf(s.store), b), s.loc, b);
        OtherActivity(c, SlotAt(SlotsOf(s.store), b), s.loc, e.loc, b);
      }
    }
  }

  ghost predicate Inv(c: Config, s: System)
    requires GoodConfig(c)
  {
    && Exclusive(c, s)
    && Current(c, s)
    && Homes(s)
    && AllAgree(c, s.store, s.loc)
  }

  /** The slot a thread inside a critical section works on is the one the shard map holds. */
  lemma SectionCurrent(c: Config, s: System, tid: Tid)
    requires GoodConfig(c) && Inv(c, s) && tid in s.threads && s.threads[tid].pc.HaveState?
    ensures var a := ActivityOf(tid); var o := s.threads[tid].pc.obj;
            a in s.store.states && s.store.states[a] == o && o in s.store.objs &&
            SlotAt(SlotsOf(s.store), a) == s.store.objs[o] &&
            Agrees(c, s.store.objs[o], s.loc, a)
  {
    assert PointsIntoStore(c, s.store, tid, s.threads[tid].pc);
    assert Agrees(c, SlotAt(SlotsOf(s.store), ActivityOf(tid)), s.loc, ActivityOf(tid));
  }

  // ---------------------------------------------------------------- one lemma per kind of step

  lemma HandleLawful(c: Config, s: System, t: Task, now: int, o: nat)
    requires Homes(s) && o in s.store.objs
    requires Handler(t) in s.threads && s.threads[Handler(t)].pc == HaveState(Handle(now), o)
    ensures Lawful(s, Handler(t), HandleSection(c, s, t, now, o))
  {
    assert Fits(s.loc, Handler(t), s.threads[Handler(t)].pc);
  }

  lemma HandleAgrees(c: Config, s: System, t: Task, now: int)
    requires GoodConfig(c) && GoodStore(s.store) && AllAgree(c, s.store, s.loc)
    requires t.activityId in s.store.states && t !in s.loc
    ensures var e := HandleSection(c, s, t, now, s.store.states[t.activityId]);
            GoodStore(e.store) && AllAgree(c, e.store, e.loc)
  {
    var a, o := t.activityId, s.store.states[t.activityId];
    assert Agrees(c, SlotAt(SlotsOf(s.store), a), s.loc, a);
    AdmitKeeps(c, s.store.objs[o], s.loc, t, now);
    var (slot, d) := Admit(s.store.objs[o], c, t, now);
    SectionSlots(s.store, a, slot);
    OneActivity(c, s, HandleSection(c, s, t, now, o), a);
  }

  /** A slot holder that leaves under the state lock. */
  lemma LeaveAgrees(c: Config, s: System, t: Task, to: Loc, now: int)
    requires GoodConfig(c) && GoodStore(s.store) && AllAgree(c, s.store, s.loc)
    requires t.activityId in s.store.states && t in s.loc
    requires (s.loc[t].HeldDirect? && to.Rejected?) || (s.loc[t].InPool? && to.Processed?)
    ensures var o := s.store.states[t.activityId];
            var st := SetSlot(s.store, o, ReleaseOne(s.store.objs[o], now));
            var e := JustGo(s, Finished).(store := st, loc := s.loc[t := to]);
            GoodStore(e.store) && AllAgree(c, e.store, e.loc)
  {
    var a, o := t.activityId, s.store.states[t.activityId];
    assert Agrees(c, SlotAt(SlotsOf(s.store), a), s.loc, a);
    ReleaseKeeps(c, s.store.objs[o], s.loc, t, to, now);
    SectionSlots(s.store, a, ReleaseOne(s.store.objs[o], now));
    var st := SetSlot(s.store, o, ReleaseOne(s.store.objs[o], now));
    OneActivity(c, s, JustGo(s, Finished).(store := st, loc := s.loc[t := to]), a);
  }

  lemma RollbackDirectLawful(s: System, t: Task, now: int, o: nat)
    requires Homes(s) && o in s.store.objs
    requires Handler(t) in s.threads && s.threads[Handler(t)].pc == HaveState(RollbackDirect, o)
    ensures Lawful(s, Handler(t), RollbackDirectSection(s, t, now, o))
  {
    assert Fits(s.loc, Handler(t), s.threads[Handler(t)].pc);
  }

  lemma RollbackBatchLawful(s: System, u: Task, batch: seq<Task>, now: int, o: nat)
    requires Homes(s) && o in s.store.objs
    requires Worker(u) in s.threads && s.threads[Worker(u)].pc == HaveState(RollbackBatch(batch), o)
    ensures Lawful(s, Worker(u), RollbackBatchSection(s, batch, now, o))
    ensures CarriesOwn(s.loc, u, batch)
  {
    assert Fits(s.loc, Worker(u), s.threads[Worker(u)].pc);
    var e := RollbackBatchSection(s, batch, now, o);
    assert u !in batch;
    forall t | t in e.loc
      ensures MayMove(s, Worker(u), e, t) && Delivered(s, Worker(u), e, t)
    {
      if t in s.loc { assert Owned(s.threads, s.loc, t); }
    }
  }

  lemma RollbackBatchAgrees(c: Config, s: System, u: Task, batch: seq<Task>, now: int)
    requires GoodConfig(c) && GoodStore(s.store) && AllAgree(c, s.store, s.loc)
    requires u.activityId in s.store.states && CarriesOwn(s.loc, u, batch)
    ensures var e := RollbackBatchSection(s, batch, now, s.store.states[u.activityId]);
            GoodStore(e.store) && AllAgree(c, e.store, e.loc)
  {
    var a, o := u.activityId, s.store.states[u.activityId];
    assert Agrees(c, SlotAt(SlotsOf(s.store), a), s.loc, a);
    RollbackBatchKeeps(c, s.store.objs[o], s.loc, a, batch, now);
    SectionSlots(s.store, a, ReleaseBatch(s.store.objs[o], batch, now));
    OneActivity(c, s, RollbackBatchSection(s, batch, now, o), a);
  }

  /** The batch drained under the state lock consists of this activity's waiting tasks. */
  lemma DoneDrains(c: Config, s: System, u: Task, now: int, o: nat)
    requires GoodConfig(c) && o in s.store.objs && Agrees(c, s.store.objs[o], s.loc, u.activityId)
    requires u in s.loc && s.loc[u].InPool?
    ensures var (slot, next) := Finish(s.store.objs[o], c.perActivityLimit, now);
            && Distinct(next)
            && (forall t :: t in next ==> t != u && t in s.loc && s.loc[t].InMailbox? && t.activityId == u.activityId)
            && Agrees(c, slot, MoveAll(s.loc[u := Processed], next, InBatch(u)), u.activityId)
  {
    var slot0 := s.store.objs[o];
    ReleaseKeeps(c, slot0, s.loc, u, Processed, now);
    DrainKeeps(c, ReleaseOne(slot0, now), s.loc[u := Processed], u.activityId, u, now);
  }

  /** Where the tasks are after onTaskDone's critical section. */
  function DoneLoc(loc: map<Task, Loc>, u: Task, next: seq<Task>): map<Task, Loc> {
    MoveAll(loc[u := Processed], next, InBatch(u))
  }

  lemma DoneLocAt(loc: map<Task, Loc>, u: Task, next: seq<Task>)
    requires u in loc && u !in next && forall t :: t in next ==> t in loc
    ensures var loc' := DoneLoc(loc, u, next);
            && loc'.Keys == loc.Keys && loc'[u] == Processed
            && (forall t :: t in loc && t != u ==> loc'[t] == if t in next then InBatch(u) else loc[t])
  {
  }

  lemma DoneMayMove(s: System, u: Task, e: Effect, next: seq<Task>)
    requires Homes(s) && u in s.loc && s.loc[u].InPool? && Carried(e.pc) == next
    requires u !in next && forall t :: t in next ==> t in s.loc && s.loc[t].InMailbox?
    requires e.loc == DoneLoc(s.loc, u, next)
    requires Worker(u) in s.threads && Carried(s.threads[Worker(u)].pc) == []
    ensures forall t :: t in e.loc ==> MayMove(s, Worker(u), e, t) && Delivered(s, Worker(u), e, t)
  {
    DoneLocAt(s.loc, u, next);
    forall t | t in e.loc
      ensures MayMove(s, Worker(u), e, t) && Delivered(s, Worker(u), e, t)
    {
      assert Owned(s.threads, s.loc, t);
    }
  }

  lemma DoneFits(loc: map<Task, Loc>, u: Task, next: seq<Task>)
    requires u in loc && u !in next && Distinct(next)
    requires forall t :: t in next ==> t in loc && t.activityId == u.activityId
    ensures Fits(DoneLoc(loc, u, next), Worker(u), AfterSubmit(next)) && Carried(AfterSubmit(next)) == next
  {
    DoneLocAt(loc, u, next);
  }

  lemma DoneLawful(c: Config, s: System, u: Task, now: int, o: nat)
    requires GoodConfig(c) && Homes(s) && o in s.store.objs && Agrees(c, s.store.objs[o], s.loc, u.activityId)
    requires Worker(u) in s.threads && s.threads[Worker(u)].pc == HaveState(Done, o)
    ensures Lawful(s, Worker(u), DoneSection(c, s, u, now, o)) && u in s.loc && s.loc[u].InPool?
  {
    assert u in s.loc && s.loc[u].InPool? by {
      assert Fits(s.loc, Worker(u), s.threads[Worker(u)].pc);
    }
    var e, next := DoneSection(c, s, u, now, o), Finish(s.store.objs[o], c.perActivityLimit, now).1;
    assert u !in next && Distinct(next) && forall t :: t in next ==>
           t in s.loc && s.loc[t].InMailbox? && t.activityId == u.activityId by {
      DoneDrains(c, s, u, now, o);
    }
    assert e.pc == AfterSubmit(next) && e.spawn == None && e.loc == DoneLoc(s.loc, u, next);
    DoneFits(s.loc, u, next);
    DoneMayMove(s, u, e, next);
    assert s.loc.Keys <= e.loc.Keys by { DoneLocAt(s.loc, u, next); }
  }

  lemma DoneAgrees(c: Config, s: System, u: Task, now: int)
    requires GoodConfig(c) && GoodStore(s.store) && AllAgree(c, s.store, s.loc)
    requires u.activityId in s.store.states && u in s.loc && s.loc[u].InPool?
    ensures var e := DoneSection(c, s, u, now, s.store.states[u.activityId]);
            GoodStore(e.store) && AllAgree(c, e.store, e.loc)
  {
    var a, o := u.activityId, s.store.states[u.activityId];
    assert Agrees(c, SlotAt(SlotsOf(s.store), a), s.loc, a);
    DoneDrains(c, s, u, now, o);
    var (slot, next) := Finish(s.store.objs[o], c.perActivityLimit, now);
    SectionSlots(s.store, a, slot);
    DoneLocAt(s.loc, u, next);
    var e := JustGo(s, Finished).(store := SetSlot(s.store, o, slot), loc := DoneLoc(s.loc, u, next));
    OneActivity(c, s, e, a);
  }

  lemma SubmitDirectLawful(s: System, t: Task, accept: bool)
    requires Homes(s) && Handler(t) in s.threads && s.threads[Handler(t)].pc == Reserved
    ensures Lawful(s, Handler(t), SubmitDirectEffect(s, t, accept))
    ensures t in s.loc && s.loc[t].HeldDirect?
  {
    assert Fits(s.loc, Handler(t), s.threads[Handler(t)].pc);
    assert Worker(t) in s.threads ==> Fits(s.loc, Worker(t), s.threads[Worker(t)].pc);
  }

  lemma SubmitNextLawful(s: System, u: Task, batch: seq<Task>, accept: bool)
    requires Homes(s) && batch != [] && Worker(u) in s.threads && s.threads[Worker(u)].pc == Submitting(batch)
    ensures Lawful(s, Worker(u), SubmitNextEffect(s, batch, accept))
    ensures batch[0] in s.loc && s.loc[batch[0]].InBatch?
  {
    assert Fits(s.loc, Worker(u), s.threads[Worker(u)].pc);
    assert batch[0] in batch;
    assert Worker(batch[0]) in s.threads ==> Fits(s.loc, Worker(batch[0]), s.threads[Worker(batch[0])].pc);
    var e := SubmitNextEffect(s, batch, accept);
    assert accept ==> Carried(e.pc) == batch[1..];
    assert forall t :: t in batch[1..] ==> t in batch;
    forall t | t in e.loc
      ensures MayMove(s, Worker(u), e, t) && Delivered(s, Worker(u), e, t)
    {
      if t in s.loc { assert Owned(s.threads, s.loc, t); }
    }
  }

  lemma SubmitAgrees(c: Config, s: System, t: Task)
    requires GoodConfig(c) && GoodStore(s.store) && AllAgree(c, s.store, s.loc)
    requires t in s.loc && (s.loc[t].HeldDirect? || s.loc[t].InBatch?)
    ensures AllAgree(c, s.store, s.loc[t := InPool])
  {
    var a := t.activityId;
    assert Agrees(c, SlotAt(SlotsOf(s.store), a), s.loc, a);
    SubmitKeeps(c, SlotAt(SlotsOf(s.store), a), s.loc, t);
    OneActivity(c, s, JustGo(s, Finished).(loc := s.loc[t := InPool]), a);
  }

  lemma RejectAgrees(c: Config, s: System, t: Task)
    requires GoodConfig(c) && GoodStore(s.store) && AllAgree(c, s.store, s.loc) && t !in s.loc
    ensures AllAgree(c, s.store, s.loc[t := Rejected])
  {
    var a := t.activityId;
    var loc' := s.loc[t := Rejected];
    assert Agrees(c, SlotAt(SlotsOf(s.store), a), s.loc, a);
    assert Holding(loc', a) == Holding(s.loc, a) && Batched(loc', a) == Batched(s.loc, a);
    OneActivity(c, s, JustGo(s, Finished).(loc := loc'), a);
  }

  /** Creating an unused state, or collecting an idle one, changes no account. */
  lemma UnusedAgrees(c: Config, s: System, e: Effect, a: int)
    requires GoodConfig(c) && GoodStore(s.store) && AllAgree(c, s.store, s.loc) && e.loc == s.loc
    requires GoodStore(e.store)
    requires forall b: int :: b != a ==> SlotAt(SlotsOf(e.store), b) == SlotAt(SlotsOf(s.store), b)
    requires var x, y := SlotAt(SlotsOf(e.store), a), SlotAt(SlotsOf(s.store), a);
             x.inflight == y.inflight && x.mailbox == y.mailbox
    ensures AllAgree(c, e.store, e.loc)
  {
    assert Agrees(c, SlotAt(SlotsOf(s.store), a), s.loc, a);
    OneActivity(c, s, e, a);
  }
}
