/**
  Slot accounting: what the state of an activity says about the tasks of that activity.
  Everything here is about one activity's slot and the location of its tasks; threads come later.
 */
module ConsumerAccounts {
  import opened ActivityStates
  import opened Collections
  import opened ConsumerSystem

  predicate Holds(l: Loc) {
    l.HeldDirect? || l.InBatch? || l.InPool?
  }

  /** The tasks of activity `a` that hold one of its slots. */
  function Holding(loc: map<Task, Loc>, a: int): set<Task> {
    set t | t in loc && t.activityId == a && Holds(loc[t])
  }

  /** Those among them that were drained but not yet submitted. */
  function Batched(loc: map<Task, Loc>, a: int): set<Task> {
    set t | t in loc && t.activityId == a && loc[t].InBatch?
  }

  /** A missing entry of the shard map counts as an unused slot. */
  function SlotAt(slots: map<int, Slot>, a: int): Slot {
    if a in slots then slots[a] else Slot(0, [], 0)
  }

  /** The mailbox holds exactly the activity's waiting tasks, each once. */
  ghost predicate Waiting(mailbox: seq<Task>, loc: map<Task, Loc>, a: int) {
    && Distinct(mailbox)
    && (forall t :: t in mailbox ==> t in loc && loc[t].InMailbox? && t.activityId == a)
    && (forall t :: t in loc && loc[t].InMailbox? && t.activityId == a ==> t in mailbox)
  }

  /** `inflight` counts exactly the activity's slot holders, and both queues are bounded. */
  ghost predicate Counted(c: Config, slot: Slot, loc: map<Task, Loc>, a: int) {
    && slot.inflight == |Holding(loc, a)| <= c.perActivityLimit
    && |slot.mailbox| + |Batched(loc, a)| <= c.perActivityMailboxSize + c.perActivityLimit
  }

  ghost predicate Agrees(c: Config, slot: Slot, loc: map<Task, Loc>, a: int) {
    Waiting(slot.mailbox, loc, a) && Counted(c, slot, loc, a)
  }

  /** Activity `a` does not see the difference between the two. */
  ghost predicate SameFor(loc: map<Task, Loc>, loc': map<Task, Loc>, a: int) {
    forall t: Task :: t.activityId == a ==> (t in loc <==> t in loc') && (t in loc ==> loc'[t] == loc[t])
  }

  lemma OtherActivity(c: Config, slot: Slot, loc: map<Task, Loc>, loc': map<Task, Loc>, a: int)
    requires Agrees(c, slot, loc, a) && SameFor(loc, loc', a)
    ensures Agrees(c, slot, loc', a)
  {
    assert Holding(loc', a) == Holding(loc, a);
    assert Batched(loc', a) == Batched(loc, a);
  }

  lemma BatchedAtMostHolding(loc: map<Task, Loc>, a: int)
    ensures |Batched(loc, a)| <= |Holding(loc, a)|
  {
    SubsetSize(Batched(loc, a), Holding(loc, a));
  }

  // ---------------------------------------------------------------- single moves

  lemma AdmitKeeps(c: Config, slot: Slot, loc: map<Task, Loc>, t: Task, now: int)
    requires GoodConfig(c) && Agrees(c, slot, loc, t.activityId) && t !in loc
    ensures var (slot', d) := Admit(slot, c, t, now);
            var l := if d.Direct? then HeldDirect else if d.Enqueued? then InMailbox else Rejected;
            Agrees(c, slot', loc[t := l], t.activityId)
  {
    var a := t.activityId;
    var (slot', d) := Admit(slot, c, t, now);
    var loc' := loc[t := if d.Direct? then HeldDirect else if d.Enqueued? then InMailbox else Rejected];
    assert Holding(loc', a) == if d.Direct? then Holding(loc, a) + {t} else Holding(loc, a);
    assert Batched(loc', a) == Batched(loc, a);
    BatchedAtMostHolding(loc, a);
  }

  /** A slot holder that leaves (task done, or direct submit refused) frees exactly one slot; the
      clamp `if state.inflight > 0` never fires. */
  lemma ReleaseKeeps(c: Config, slot: Slot, loc: map<Task, Loc>, t: Task, to: Loc, now: int)
    requires Agrees(c, slot, loc, t.activityId) && t in loc && (loc[t].HeldDirect? || loc[t].InPool?)
    requires to.Processed? || to.Rejected?
    ensures slot.inflight > 0
    ensures Agrees(c, ReleaseOne(slot, now), loc[t := to], t.activityId)
  {
    var a := t.activityId;
    assert t in Holding(loc, a);
    assert Holding(loc[t := to], a) == Holding(loc, a) - {t};
    assert Batched(loc[t := to], a) == Batched(loc, a);
  }

  lemma SubmitKeeps(c: Config, slot: Slot, loc: map<Task, Loc>, t: Task)
    requires Agrees(c, slot, loc, t.activityId) && t in loc && (loc[t].HeldDirect? || loc[t].InBatch?)
    ensures Agrees(c, slot, loc[t := InPool], t.activityId)
  {
    var a := t.activityId;
    assert Holding(loc[t := InPool], a) == Holding(loc, a);
    SubsetSize(Batched(loc[t := InPool], a), Batched(loc, a));
  }

  /** Draining a duplicate-free batch adds exactly that batch to the slot holders ... */
  lemma DrainCounts(loc: map<Task, Loc>, a: int, batch: seq<Task>, u: Task)
    requires forall t :: t in batch ==> t in loc && t.activityId == a
    ensures Holding(MoveAll(loc, batch, InBatch(u)), a) == Holding(loc, a) + Elements(batch)
    ensures Batched(MoveAll(loc, batch, InBatch(u)), a) == Batched(loc, a) + Elements(batch)
  {
    var loc' := MoveAll(loc, batch, InBatch(u));
    assert forall t :: t in Elements(batch) <==> t in batch;
    assert forall t :: t in loc' ==> loc'[t] == if t in batch then InBatch(u) else loc[t];
  }

  /** ... and rolling it back takes exactly that batch away. */
  lemma RollbackCounts(loc: map<Task, Loc>, a: int, batch: seq<Task>)
    requires forall t :: t in batch ==> t in loc && t.activityId == a
    ensures Holding(MoveAll(loc, batch, InMailbox), a) == Holding(loc, a) - Elements(batch)
    ensures Batched(MoveAll(loc, batch, InMailbox), a) == Batched(loc, a) - Elements(batch)
  {
    var loc' := MoveAll(loc, batch, InMailbox);
    assert forall t :: t in Elements(batch) <==> t in batch;
    assert forall t :: t in loc' ==> loc'[t] == if t in batch then InMailbox else loc[t];
  }

  lemma DrainWaiting(mailbox: seq<Task>, loc: map<Task, Loc>, a: int, k: nat, u: Task)
    requires Waiting(mailbox, loc, a) && k <= |mailbox|
    ensures Waiting(mailbox[k..], MoveAll(loc, mailbox[..k], InBatch(u)), a)
    ensures Distinct(mailbox[..k])
  {
    var loc' := MoveAll(loc, mailbox[..k], InBatch(u));
    forall t | t in loc' && loc'[t].InMailbox? && t.activityId == a
      ensures t in mailbox[k..]
    {
      assert t in mailbox && t !in mailbox[..k];
      assert mailbox == mailbox[..k] + mailbox[k..];
    }
  }

  lemma DrainKeeps(c: Config, slot: Slot, loc: map<Task, Loc>, a: int, u: Task, now: int)
    requires Agrees(c, slot, loc, a)
    ensures var (slot', batch) := Drain(slot, c.perActivityLimit, now);
            && Agrees(c, slot', MoveAll(loc, batch, InBatch(u)), a)
            && Distinct(batch) && (forall t :: t in batch ==> t in slot.mailbox)
  {
    var (slot', batch) := Drain(slot, c.perActivityLimit, now);
    if batch == [] {
      assert MoveAll(loc, batch, InBatch(u)) == loc;
    } else {
      DrainWaiting(slot.mailbox, loc, a, |batch|, u);
      DrainCounts(loc, a, batch, u);
      DistinctSize(batch);
      assert Holding(loc, a) !! Elements(batch);
    }
  }

  lemma RollbackWaiting(mailbox: seq<Task>, loc: map<Task, Loc>, a: int, batch: seq<Task>)
    requires Waiting(mailbox, loc, a) && Distinct(batch)
    requires forall t :: t in batch ==> t in loc && loc[t].InBatch? && t.activityId == a
    ensures Waiting(batch + mailbox, MoveAll(loc, batch, InMailbox), a)
  {
    DistinctConcat(batch, mailbox);
    assert forall t :: t in batch + mailbox <==> t in batch || t in mailbox;
  }

  /** Returning a refused batch frees exactly its slots; the clamp never fires. */
  lemma RollbackBatchKeeps(c: Config, slot: Slot, loc: map<Task, Loc>, a: int, batch: seq<Task>, now: int)
    requires Agrees(c, slot, loc, a) && Distinct(batch)
    requires forall t :: t in batch ==> t in loc && loc[t].InBatch? && t.activityId == a
    ensures slot.inflight >= |batch|
    ensures Agrees(c, ReleaseBatch(slot, batch, now), MoveAll(loc, batch, InMailbox), a)
  {
    RollbackCounts(loc, a, batch);
    DistinctSize(batch);
    assert Elements(batch) <= Batched(loc, a) <= Holding(loc, a);
    SubsetSize(Elements(batch), Holding(loc, a));
    RollbackWaiting(slot.mailbox, loc, a, batch);
  }
}
