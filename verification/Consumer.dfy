/**
  The Consumer object (backend/pkg/activityconsumer/consumer.go, gc.go) as one thread sees it when
  nobody interleaves: the maps of its shards (as one map, since the shard only selects the lock)
  from activity id to state object. The interleavings are the subject of ConsumerSystem, whose
  critical sections are the same functions on Slot values.
 */
module Consumers {
  import opened Sums
  import opened ActivityStates
  import opened Options

  datatype HandleResult = Accepted | ErrActivityBusy | ErrMailboxFull | ErrConsumerClosed | ErrPoolRefused

  /** How HandleMessage answers, and what it leaves of a state: below the limit the message is submitted
      with a slot, or refused by the pool with nothing changed; at the limit it waits last in the mailbox
      unless there is none or it is full. */
  predicate Handled(cfg: Config, before: Slot, after: Slot, task: Task, now: int, accept: bool, r: HandleResult,
      handedOver: bool) {
    if before.inflight < cfg.perActivityLimit then
      if accept then r.Accepted? && handedOver && after == Slot(before.inflight + 1, before.mailbox, now)
      else r.ErrPoolRefused? && !handedOver && after == before.(lastTouch := now)
    else if cfg.perActivityMailboxSize == 0 then
      r.ErrActivityBusy? && !handedOver && after == before.(lastTouch := now)
    else if |before.mailbox| >= cfg.perActivityMailboxSize then
      r.ErrMailboxFull? && !handedOver && after == before.(lastTouch := now)
    else
      r.Accepted? && !handedOver && after == Slot(before.inflight, before.mailbox + [task], now)
  }

  lemma OneLess<V>(all: map<int, V>, left: map<int, V>, left': map<int, V>, idle: set<int>, todo: set<int>, a: int)
    requires a in todo && todo <= left.Keys && left == all - (idle - todo)
    requires left' == left - (idle * todo * {a})
    ensures left' == all - (idle - (todo - {a})) && todo - {a} <= left'.Keys
    ensures idle * todo - {a} == idle * (todo - {a})
  {
    assert idle - (todo - {a}) == (idle - todo) + (idle * todo * {a});
  }

  class Consumer {
    const cfg: Config
    var states: map<int, ActivityState>
    var closed: bool
    var submitted: seq<Task>   // what the pool has accepted, in order
    ghost var repr: set<object>

    ghost predicate Valid()
      reads this, repr
    {
      && GoodConfig(cfg)
      && this in repr
      && (forall a :: a in states ==>
        states[a] in repr && states[a].buffer in repr && states[a].Valid() && states[a].inflight >= 0)
      && (forall a, b :: a in states && b in states && a != b ==>
            states[a] in repr && states[b] in repr && states[a] != states[b] && states[a].buffer != states[b].buffer)
    }

    /** The value of an activity's state, if it has one. */
    ghost function SlotOf(a: int): Option<Slot>
      requires Valid()
      reads this, repr
    {
      if a in states then Some(states[a].View()) else None
    }

    /** The state HandleMessage starts from: a missing one is created. */
    ghost function SlotOrNew(a: int, now: int): Slot
      requires Valid()
      reads this, repr
    {
      if a in states then states[a].View() else Slot(0, [], now)
    }

    constructor (cfg: Config)
      requires GoodConfig(cfg)
      ensures Valid() && fresh(repr) && this.cfg == cfg && !closed && submitted == []
      ensures forall a :: SlotOf(a) == None
    {
      this.cfg := cfg;
      states := map[];
      closed := false;
      submitted := [];
      repr := {this};
    }

    /** Work on one state object leaves the consumer valid and every other activity alone. */
    twostate lemma OnlyOneChanged(a: int)
      requires old(Valid()) && states == old(states) && a in states
      requires repr == old(repr) + {states[a].buffer} && states[a].Valid() && states[a].inflight >= 0
      requires states[a].buffer == old(states[a].buffer) || fresh(states[a].buffer)
      requires forall o :: o in old(repr) && o != this && o != states[a] && o != old(states[a].buffer) ==> unchanged(o)
      ensures Valid()
      ensures SlotOf(a) == Some(states[a].View())
      ensures forall b :: b != a ==> SlotOf(b) == old(SlotOf(b))
    {
      forall b | b in states && b != a
        ensures unchanged(states[b]) && unchanged(states[b].buffer)
      {
        assert states[b] in old(repr) && old(states[b].buffer) in old(repr);
      }
    }

    /** lockOrCreateState without its locks. */
    method LockOrCreateState(a: int, now: int) returns (state: ActivityState)
      requires Valid()
      modifies this`states, this`repr
      ensures Valid() && fresh(repr - old(repr)) && old(repr) <= repr
      ensures a in states && state == states[a] && SlotOf(a) == Some(old(SlotOrNew(a, now)))
      ensures forall b :: b != a ==> SlotOf(b) == old(SlotOf(b))
    {
      if a in states {
        state := states[a];
      } else {
        state := new ActivityState(now, cfg.perActivityMailboxSize);
        states := states[a := state];
        repr := repr + {state, state.buffer};
      }
    }

    /** The pool's non-blocking Submit: it accepts the task or refuses it at once. */
    method PoolSubmit(task: Task, accept: bool)
      modifies this`submitted
      ensures submitted == if accept then old(submitted) + [task] else old(submitted)
    {
      if accept {
        submitted := submitted + [task];
      }
    }

    method RollbackDirectSubmit(a: int, now: int)
      requires Valid() && a in states
      modifies repr
      ensures Valid() && repr == old(repr) && closed == old(closed) && submitted == old(submitted)
      ensures SlotOf(a) == Some(ReleaseOne(old(SlotOf(a)).value, now))
      ensures forall b :: b != a ==> SlotOf(b) == old(SlotOf(b))
      ensures states == old(states)
    {
      states[a].Release(now);
      OnlyOneChanged(a);
    }

    method RollbackMailboxBatch(a: int, tasks: seq<Task>, now: int)
      requires Valid() && a in states
      modifies repr
      ensures Valid() && fresh(repr - old(repr)) && closed == old(closed) && submitted == old(submitted)
      ensures SlotOf(a) == Some(ReleaseBatch(old(SlotOf(a)).value, tasks, now))
      ensures forall b :: b != a ==> SlotOf(b) == old(SlotOf(b))
      ensures states == old(states)
    {
      states[a].ReturnBatch(tasks, now);
      repr := repr + {states[a].buffer};
      OnlyOneChanged(a);
    }

    /** The switch of HandleMessage under the state lock. */
    method AdmitLocked(task: Task, now: int) returns (d: Decision)
      requires Valid() && task.activityId in states
      modifies repr
      ensures Valid() && fresh(repr - old(repr))
      ensures closed == old(closed) && submitted == old(submitted) && states == old(states)
      ensures SlotOf(task.activityId).Some?
      ensures (SlotOf(task.activityId).value, d) == Admit(old(SlotOf(task.activityId)).value, cfg, task, now)
      ensures forall b :: b != task.activityId ==> SlotOf(b) == old(SlotOf(b))
    {
      d := states[task.activityId].AdmitTask(cfg, task, now);
      repr := repr + {states[task.activityId].buffer};
      OnlyOneChanged(task.activityId);
    }

    /** submitDirect: a slot is held; a refused submission gives it back. */
    method SubmitDirect(task: Task, now: int, accept: bool) returns (ok: bool)
      requires Valid() && task.activityId in states
      modifies repr
      ensures Valid() && repr == old(repr) && closed == old(closed) && ok == accept
      ensures submitted == if ok then old(submitted) + [task] else old(submitted)
      ensures SlotOf(task.activityId) ==
                if ok then old(SlotOf(task.activityId)) else Some(ReleaseOne(old(SlotOf(task.activityId)).value, now))
      ensures forall b :: b != task.activityId ==> SlotOf(b) == old(SlotOf(b))
    {
      PoolSubmit(task, accept);
      ok := accept;
      if !ok {
        RollbackDirectSubmit(task.activityId, now);
      }
    }

    /** HandleMessage; `accept` is the pool's answer to a direct submission. An error leaves slots
        and mailbox as they were; nil means the message was submitted or is last in the mailbox. */
    method HandleMessage(task: Task, now: int, accept: bool) returns (r: HandleResult)
      requires Valid()
      modifies repr
      ensures Valid() && fresh(repr - old(repr)) && closed == old(closed)
      ensures r.ErrConsumerClosed? <==> old(closed)
      ensures forall b :: b != task.activityId || r.ErrConsumerClosed? ==> SlotOf(b) == old(SlotOf(b))
      ensures submitted == old(submitted) || (r.Accepted? && submitted == old(submitted) + [task])
      ensures !r.ErrConsumerClosed? ==>
                SlotOf(task.activityId).Some? &&
                Handled(cfg, old(SlotOrNew(task.activityId, now)), SlotOf(task.activityId).value, task, now, accept, r,
                  submitted != old(submitted))
    {
      if closed {
        return ErrConsumerClosed;
      }
      var state := LockOrCreateState(task.activityId, now);
      var d := AdmitLocked(task, now);
      match d
      case Busy => r := ErrActivityBusy;
      case MailboxFull => r := ErrMailboxFull;
      case Enqueued => r := Accepted;
      case Direct =>
        var ok := SubmitDirect(task, now, accept);
        r := if ok then Accepted else ErrPoolRefused;
    }

    /** The critical section of onTaskDone. */
    method FinishTask(a: int, now: int) returns (batch: seq<Task>)
      requires Valid() && a in states
      modifies repr
      ensures Valid() && repr == old(repr)
      ensures closed == old(closed) && submitted == old(submitted) && states == old(states)
      ensures SlotOf(a).Some? && (SlotOf(a).value, batch) == Finish(old(SlotOf(a)).value, cfg.perActivityLimit, now)
      ensures forall b :: b != a ==> SlotOf(b) == old(SlotOf(b))
    {
      states[a].Release(now);
      batch := states[a].DrainMailbox(cfg.perActivityLimit, now);
      OnlyOneChanged(a);
    }

    /** submitMailboxBatch; `accepts` is how many submissions the pool takes before it refuses one. */
    method SubmitMailboxBatch(a: int, batch: seq<Task>, accepts: nat, now: int)
      requires Valid() && a in states
      modifies repr
      ensures Valid() && fresh(repr - old(repr)) && closed == old(closed)
      ensures var k := if accepts < |batch| then accepts else |batch|;
              && submitted == old(submitted) + batch[..k]
              && SlotOf(a) == if k < |batch| then Some(ReleaseBatch(old(SlotOf(a)).value, batch[k..], now))
                else old(SlotOf(a))
      ensures forall b :: b != a ==> SlotOf(b) == old(SlotOf(b))
    {
      var i := 0;
      while i < |batch| && i < accepts
        invariant 0 <= i <= |batch| && i <= accepts
        invariant submitted == old(submitted) + batch[..i]
        modifies this`submitted
      {
        PoolSubmit(batch[i], true);
        i := i + 1;
      }
      if i < |batch| {
        RollbackMailboxBatch(a, batch[i..], now);
      }
    }

    /** onTaskDone. The freed slots go to the head of the mailbox in order; what the pool refuses
        goes back to the front as if it had never been drained. */
    method OnTaskDone(a: int, now: int, later: int, accepts: nat)
      requires Valid() && a in states && SlotOf(a).value.inflight > 0
      modifies repr
      ensures Valid() && fresh(repr - old(repr)) && closed == old(closed)
      ensures forall b :: b != a ==> SlotOf(b) == old(SlotOf(b))
      ensures var before := old(SlotOf(a)).value;
              var room := cfg.perActivityLimit - before.inflight + 1;
              var wanted := if room < 0 then 0 else if room < |before.mailbox| then room else |before.mailbox|;
              var k := if accepts < wanted then accepts else wanted;
              && submitted == old(submitted) + before.mailbox[..k]
              && SlotOf(a).Some? && SlotOf(a).value.inflight == before.inflight - 1 + k
              && SlotOf(a).value.mailbox == before.mailbox[k..]
              && SlotOf(a).value.lastTouch == if k < wanted then later else now
    {
      ghost var before := old(SlotOf(a)).value;
      var batch := FinishTask(a, now);
      DrainShape(ReleaseOne(before, now), cfg.perActivityLimit, now);
      ghost var k := if accepts < |batch| then accepts else |batch|;
      SubmitMailboxBatch(a, batch, accepts, later);
      PartialRollback(ReleaseOne(before, now), cfg.perActivityLimit, now, later, k);
    }

    ghost function IdleEntries(now: int): set<int>
      requires Valid()
      reads this, repr
    {
      set a | a in states && IsIdle(states[a].View(), now, cfg.activityTTL)
    }

    /** What a collector pass does to one entry. */
    method CollectIfIdle(a: int, now: int)
      requires Valid() && a in states
      modifies this`states
      ensures Valid() && repr == old(repr)
      ensures states == old(states) - (old(IdleEntries(now)) * {a})
      ensures IdleEntries(now) == old(IdleEntries(now)) - {a}
    {
      var idle := states[a].Idle(now, cfg.activityTTL);
      if idle {
        states := states - {a};
      }
    }

    /** The loop of a collector pass. */
    method CollectAll(now: int)
      requires Valid()
      modifies this`states
      ensures Valid() && repr == old(repr)
      ensures states == old(states) - old(IdleEntries(now))
    {
      var todo := states.Keys;
      while todo != {}
        invariant Valid() && repr == old(repr) && todo <= states.Keys
        invariant IdleEntries(now) == old(IdleEntries(now)) * todo
        invariant states == old(states) - (old(IdleEntries(now)) - todo)
        decreases |todo|
      {
        ghost var w := SomeElement(todo);
        var a :| a in todo;
        ghost var left := states;
        CollectIfIdle(a, now);
        OneLess(old(states), left, states, old(IdleEntries(now)), todo, a);
        todo := todo - {a};
      }
    }

    /** One collector pass: an entry is gone exactly if no task of it held a slot or waited and it was last
        touched longer ago than the TTL; the others are as they were. */
    method RunGC(now: int)
      requires Valid()
      modifies this`states
      ensures Valid() && repr == old(repr)
      ensures forall a :: a in states <==>
                a in old(states) && (var s := old(SlotOf(a)).value;
                                     s.inflight > 0 || s.mailbox != [] || now - s.lastTouch <= cfg.activityTTL)
      ensures forall a :: a in states ==> SlotOf(a) == old(SlotOf(a))
    {
      CollectAll(now);
    }

    /** Close; the pool, which it releases as well, refuses every task from then on. */
    method Close()
      requires Valid()
      modifies this`closed
      ensures Valid() && repr == old(repr) && closed
      ensures forall a :: SlotOf(a) == old(SlotOf(a))
    {
      closed := true;
    }

    /** ActivityMailboxLen. */
    method ActivityMailboxLen(a: int) returns (n: int, ok: bool)
      requires Valid()
      ensures ok <==> SlotOf(a).Some?
      ensures n == if ok then |SlotOf(a).value.mailbox| else 0
    {
      if a in states {
        return states[a].len, true;
      }
      return 0, false;
    }
  }
}
