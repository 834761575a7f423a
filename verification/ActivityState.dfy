/**
  The state of one activity: how many of its tasks hold a slot, which tasks wait in its
  mailbox, and when it was last touched (backend/pkg/activityconsumer/state.go).

  `Slot` is the value of that state. The functions on it are the critical sections that the
  consumer runs while it holds the state lock; the class `ActivityState` performs them in place
  on an array and is proved to compute exactly these functions.
 */
module ActivityStates {
  import opened Options

  /** One HandleMessage call. `call` tells repeated deliveries of equal messages apart. */
  datatype Task = Task(activityId: int, call: nat)

  datatype Slot = Slot(inflight: int, mailbox: seq<Task>, lastTouch: int)

  datatype Config = Config(
    poolSize: int,
    perActivityLimit: int,
    perActivityMailboxSize: int,
    activityTTL: int,
    gcInterval: int,
    shardCount: int)

  datatype ConfigError = BadPoolSize | BadLimit | BadMailboxSize | BadTTL | BadInterval | BadShardCount

  /** A config is accepted exactly when every limit the consumer relies on holds. */
  function Validate(c: Config): (r: Option<ConfigError>)
    ensures r.None? <==>
              && c.poolSize > 0 && c.perActivityLimit > 0 && c.perActivityMailboxSize >= 0
              && c.activityTTL > 0 && c.gcInterval > 0 && c.shardCount > 0
    ensures r == Some(BadPoolSize) <==> c.poolSize <= 0
    ensures r == Some(BadShardCount) ==> c.shardCount <= 0
    ensures r.None? ==> GoodConfig(c)
  {
    if c.poolSize <= 0 then Some(BadPoolSize)
    else if c.perActivityLimit <= 0 then Some(BadLimit)
    else if c.perActivityMailboxSize < 0 then Some(BadMailboxSize)
    else if c.activityTTL <= 0 then Some(BadTTL)
    else if c.gcInterval <= 0 then Some(BadInterval)
    else if c.shardCount <= 0 then Some(BadShardCount)
    else None
  }

  /** The part of a validated config that the scheduling proofs use. */
  predicate GoodConfig(c: Config) {
    && c.perActivityLimit > 0
    && c.perActivityMailboxSize >= 0
    && c.shardCount > 0
  }

  // ---------------------------------------------------------------- critical sections

  datatype Decision = Direct | Busy | MailboxFull | Enqueued

  /** HandleMessage's switch. */
  function Admit(s: Slot, c: Config, t: Task, now: int): (Slot, Decision) {
    if s.inflight < c.perActivityLimit then
      (s.(inflight := s.inflight + 1, lastTouch := now), Direct)
    else if c.perActivityMailboxSize == 0 then
      (s.(lastTouch := now), Busy)
    else if |s.mailbox| >= c.perActivityMailboxSize then
      (s.(lastTouch := now), MailboxFull)
    else
      (s.(mailbox := s.mailbox + [t], lastTouch := now), Enqueued)
  }

  /** drainMailboxLocked: reserve a slot for as many waiting tasks as there is room for. */
  function Drain(s: Slot, limit: int, now: int): (Slot, seq<Task>) {
    var room := limit - s.inflight;
    if room <= 0 || s.mailbox == [] then
      (s.(lastTouch := now), [])
    else
      var k := if room > |s.mailbox| then |s.mailbox| else room;
      (Slot(s.inflight + k, s.mailbox[k..], now), s.mailbox[..k])
  }

  /** rollbackDirectSubmit, and the first half of onTaskDone; the guard is the source's clamp. */
  function ReleaseOne(s: Slot, now: int): Slot {
    s.(inflight := if s.inflight > 0 then s.inflight - 1 else s.inflight, lastTouch := now)
  }

  /** rollbackMailboxBatch: give the slots back and return the tasks to the front. */
  function ReleaseBatch(s: Slot, tasks: seq<Task>, now: int): Slot {
    Slot(if s.inflight >= |tasks| then s.inflight - |tasks| else 0, tasks + s.mailbox, now)
  }

  /** onTaskDone: release the finished task's slot, then drain. */
  function Finish(s: Slot, limit: int, now: int): (Slot, seq<Task>) {
    Drain(ReleaseOne(s, now), limit, now)
  }

  predicate IsIdle(s: Slot, now: int, ttl: int) {
    s.inflight == 0 && s.mailbox == [] && now - s.lastTouch > ttl
  }

  /** Either nobody waits or every slot is taken. */
  predicate EmptyOrFull(s: Slot, limit: int) {
    s.mailbox == [] || s.inflight >= limit
  }

  // ---------------------------------------------------------------- laws

  /** A drain takes a prefix of the mailbox: as long as there is room for, and no longer. */
  lemma DrainShape(s: Slot, limit: int, now: int)
    ensures var (d, batch) := Drain(s, limit, now);
            var room := limit - s.inflight;
            && |batch| == (if room < 0 then 0 else if room < |s.mailbox| then room else |s.mailbox|)
            && batch + d.mailbox == s.mailbox && d.inflight == s.inflight + |batch|
  {
    var (d, batch) := Drain(s, limit, now);
    assert batch + d.mailbox == s.mailbox;
  }

  /** A drain whose whole batch is refused is undone exactly: same slots, same mailbox order. */
  lemma RollbackUndoesDrain(s: Slot, limit: int, now: int, later: int)
    requires s.inflight >= 0
    ensures var (d, batch) := Drain(s, limit, now);
            var r := ReleaseBatch(d, batch, later);
            r.inflight == s.inflight && r.mailbox == s.mailbox
  {
    var (d, batch) := Drain(s, limit, now);
    assert batch + d.mailbox == s.mailbox;
  }

  /** If only the tail of a batch is refused, the accepted head keeps its slots and the rest of
      the mailbox is in its old order. */
  lemma PartialRollback(s: Slot, limit: int, now: int, later: int, accepted: nat)
    requires s.inflight >= 0
    requires accepted <= |Drain(s, limit, now).1|
    ensures var (d, batch) := Drain(s, limit, now);
            var r := ReleaseBatch(d, batch[accepted..], later);
            r.inflight == s.inflight + accepted && r.mailbox == s.mailbox[accepted..]
  {
    var (d, batch) := Drain(s, limit, now);
    assert batch + d.mailbox == s.mailbox;
    assert batch[accepted..] + d.mailbox == s.mailbox[accepted..];
  }

  /** Every onTaskDone critical section leaves the mailbox empty or the limit full. */
  lemma FinishRecovers(s: Slot, limit: int, now: int)
    ensures EmptyOrFull(Finish(s, limit, now).0, limit)
  {
  }

  /** A refused batch always breaks that balance, and a refused direct submit breaks it exactly
      when somebody is waiting: nothing but a later onTaskDone will look at the mailbox. */
  lemma RefusalStrands(s: Slot, tasks: seq<Task>, limit: int, now: int)
    requires 0 < s.inflight <= limit && |tasks| <= s.inflight
    ensures tasks != [] ==> !EmptyOrFull(ReleaseBatch(s, tasks, now), limit)
    ensures EmptyOrFull(ReleaseOne(s, now), limit) <==> s.mailbox == []
  {
    if tasks != [] {
      assert (tasks + s.mailbox)[0] == tasks[0];
    }
  }

  /** A concrete stranding: one slot, the waiting task is drained when the running one ends, the
      pool refuses it, and it waits again although no task of the activity holds a slot. */
  lemma RefusalStrandsAWaitingTask(a: Task, b: Task, c: Config, now: int)
    requires c.perActivityLimit == 1 && c.perActivityMailboxSize >= 1
    ensures var s0 := Slot(0, [], now);
            var (s1, d1) := Admit(s0, c, a, now);
            var (s2, d2) := Admit(s1, c, b, now);
            var (s3, batch) := Finish(s2, 1, now);
            var s4 := ReleaseBatch(s3, batch, now);
            d1.Direct? && d2.Enqueued? && batch == [b] && s4.inflight == 0 && s4.mailbox == [b]
  {
    var (s1, d1) := Admit(Slot(0, [], now), c, a, now);
    var (s2, d2) := Admit(s1, c, b, now);
    assert s2 == Slot(1, [b], now);
    assert ReleaseOne(s2, now) == Slot(0, [b], now);
  }

  // ---------------------------------------------------------------- the class

  class ActivityState {
    var inflight: int
    var buffer: array<Task>
    var len: nat
    var lastTouch: int

    ghost predicate Valid()
      reads this
    {
      len <= buffer.Length
    }

    ghost function View(): Slot
      requires Valid()
      reads this, buffer
    {
      Slot(inflight, buffer[..len], lastTouch)
    }

    constructor (now: int, mailboxCap: nat)
      ensures Valid() && fresh(buffer)
      ensures View() == Slot(0, [], now)
    {
      inflight, len, lastTouch := 0, 0, now;
      buffer := new Task[mailboxCap];
    }

    method Touch(now: int)
      requires Valid()
      modifies this`lastTouch
      ensures Valid() && View() == old(View()).(lastTouch := now)
    {
      lastTouch := now;
    }

    /** The switch of HandleMessage under the state lock. */
    method AdmitTask(c: Config, task: Task, now: int) returns (d: Decision)
      requires Valid()
      modifies this, buffer
      ensures Valid() && (buffer == old(buffer) || fresh(buffer))
      ensures (View(), d) == Admit(old(View()), c, task, now)
    {
      if inflight < c.perActivityLimit {
        inflight := inflight + 1;
        lastTouch := now;
        return Direct;
      }
      if c.perActivityMailboxSize == 0 {
        Touch(now);
        return Busy;
      }
      if len >= c.perActivityMailboxSize {
        Touch(now);
        return MailboxFull;
      }
      Enqueue(task, now);
      return Enqueued;
    }

    /** append: a full backing array is replaced by a larger one. */
    method Enqueue(task: Task, now: int)
      requires Valid()
      modifies this`buffer, this`len, this`lastTouch, buffer
      ensures Valid() && (buffer == old(buffer) || fresh(buffer))
      ensures View() == old(View()).(mailbox := old(View()).mailbox + [task], lastTouch := now)
    {
      if len == buffer.Length {
        var larger := new Task[2 * len + 1];
        forall i | 0 <= i < len { larger[i] := buffer[i]; }
        buffer := larger;
      }
      buffer[len] := task;
      len := len + 1;
      lastTouch := now;
    }

    method PrependBatch(tasks: seq<Task>, now: int)
      requires Valid()
      modifies this`buffer, this`len, this`lastTouch
      ensures Valid() && (buffer == old(buffer) || fresh(buffer))
      ensures View() == old(View()).(mailbox := tasks + old(View()).mailbox, lastTouch := now)
    {
      if |tasks| == 0 {
        lastTouch := now;
        assert tasks + old(View()).mailbox == old(View()).mailbox;
        return;
      }
      var n := |tasks|;
      var merged := new Task[n + len];
      forall i | 0 <= i < n { merged[i] := tasks[i]; }
      forall i | 0 <= i < len { merged[n + i] := buffer[i]; }
      buffer := merged;
      len := n + len;
      lastTouch := now;
    }

    /** Copies the head out and shifts the tail down inside the same array. */
    method DrainMailbox(limit: int, now: int) returns (tasks: seq<Task>)
      requires Valid()
      modifies this`inflight, this`len, this`lastTouch, buffer
      ensures Valid() && buffer == old(buffer)
      ensures (View(), tasks) == Drain(old(View()), limit, now)
    {
      var room := limit - inflight;
      if room <= 0 || len == 0 {
        lastTouch := now;
        return [];
      }
      if room > len {
        room := len;
      }
      tasks := buffer[..room];
      assert tasks == old(View()).mailbox[..room];
      ShiftDown(room);
      len := len - room;
      inflight := inflight + room;
      lastTouch := now;
    }

    /** copy(mailbox, mailbox[room:]): the tail moves to the front of the same array. */
    method ShiftDown(room: nat)
      requires Valid() && room <= len
      modifies buffer
      ensures buffer[..len - room] == old(buffer[room..len])
    {
      var i := 0;
      while i < len - room
        invariant 0 <= i <= len - room
        invariant forall k :: 0 <= k < i ==> buffer[k] == old(buffer[room + k])
        invariant forall k :: i <= k < len ==> buffer[k] == old(buffer[k])
      {
        buffer[i] := buffer[room + i];
        i := i + 1;
      }
    }

    /** `if state.inflight > 0 { state.inflight-- }` and touch. */
    method Release(now: int)
      requires Valid()
      modifies this`inflight, this`lastTouch
      ensures Valid() && View() == ReleaseOne(old(View()), now)
    {
      if inflight > 0 {
        inflight := inflight - 1;
      }
      lastTouch := now;
    }

    /** The body of rollbackMailboxBatch under the state lock. */
    method ReturnBatch(tasks: seq<Task>, now: int)
      requires Valid()
      modifies this`inflight, this`buffer, this`len, this`lastTouch
      ensures Valid() && (buffer == old(buffer) || fresh(buffer))
      ensures View() == ReleaseBatch(old(View()), tasks, now)
    {
      if inflight >= |tasks| {
        inflight := inflight - |tasks|;
      } else {
        inflight := 0;
      }
      PrependBatch(tasks, now);
    }

    method Idle(now: int, ttl: int) returns (idle: bool)
      requires Valid()
      ensures idle <==> IsIdle(View(), now, ttl)
    {
      idle := inflight == 0 && len == 0 && now - lastTouch > ttl;
    }
  }
}
