/**
  The keyed consumer pool (backend/pkg/pool/keyed_consumer_pool.go): a worker pool that may refuse any
  task, a limit of running tasks for every key, and a close that waits for the accepted tasks. Every
  step is what one goroutine does between two points where others can interfere.
 */
module KeyedPool {
  import opened Options
  import Sums

  const DEFAULT_LIMIT := 8

  /** withDefaults: no limit set means the default; a negative one means no semaphore at all. */
  function Limit(option: int): int {
    if option == 0 then DEFAULT_LIMIT else option
  }

  /** Where a call of Submit and the task it brought are. */
  datatype Phase =
    | TurnedAway            // the pool was closed or the key busy: nothing was taken
    | Admitted              // permit taken and wait group raised, not yet with the worker pool
    | Accepted              // with the worker pool, body not started
    | Running
    | BodyDone              // returned or panicked; the deferred calls are still to come
    | Refused               // the worker pool said no; the undo is still to come
    | Releasing             // wait group lowered, permit still held
    | Finished

  datatype Sub = Sub(key: string, phase: Phase)

  /** A call of CloseWithTimeout. */
  datatype Closer = Waiting | AnsweredTrue | AnsweredFalse

  datatype Pool = Pool(
    limit: int,
    closed: bool,
    group: int,
    permits: map<string, int>,
    subs: map<int, Sub>,
    closers: map<int, Closer>)

  datatype Step =
    | Enter(id: int, key: string)
    | HandOver(id: int, accepted: bool)
    | Start(id: int)
    | End(id: int)
    | Done(id: int)
    | Release(id: int)
    | Close
    | CloseAndWait(who: int)
    | SeeDrained(who: int)
    | TimeOut(who: int)

  predicate At(p: Pool, id: int, phase: Phase) {
    id in p.subs && p.subs[id].phase == phase
  }

  function Permits(p: Pool, key: string): int {
    if key in p.permits then p.permits[key] else 0
  }

  predicate Enabled(p: Pool, s: Step) {
    match s
    case Enter(id, _) => id !in p.subs
    case HandOver(id, _) => At(p, id, Admitted)
    case Start(id) => At(p, id, Accepted)
    case End(id) => At(p, id, Running)
    case Done(id) => At(p, id, BodyDone) || At(p, id, Refused)
    case Release(id) => At(p, id, Releasing)
    case Close => true
    case CloseAndWait(who) => who !in p.closers
    case SeeDrained(who) => who in p.closers && p.closers[who].Waiting? && p.group == 0
    case TimeOut(who) => who in p.closers && p.closers[who].Waiting?
  }

  function Put(p: Pool, id: int, phase: Phase): Pool
    requires id in p.subs
  {
    p.(subs := p.subs[id := p.subs[id].(phase := phase)])
  }

  predicate TurnsAway(p: Pool, key: string) {
    p.closed || (p.limit > 0 && Permits(p, key) >= p.limit)
  }

  /** The part of Submit under the mutex. */
  function DoEnter(p: Pool, id: int, key: string): Pool {
    if TurnsAway(p, key) then p.(subs := p.subs[id := Sub(key, TurnedAway)])
    else p.(
           group := p.group + 1,
           permits := if p.limit > 0 then p.permits[key := Permits(p, key) + 1] else p.permits,
           subs := p.subs[id := Sub(key, Admitted)])
  }

  function DoRelease(p: Pool, id: int): Pool
    requires id in p.subs
  {
    var key := p.subs[id].key;
    Put(if p.limit > 0 then p.(permits := p.permits[key := Permits(p, key) - 1]) else p, id, Finished)
  }

  function Do(p: Pool, s: Step): Pool
    requires Enabled(p, s)
  {
    match s
    case Enter(id, key) => DoEnter(p, id, key)
    case HandOver(id, accepted) => Put(p, id, if accepted then Accepted else Refused)
    case Start(id) => Put(p, id, Running)
    case End(id) => Put(p, id, BodyDone)
    case Done(id) => Put(p.(group := p.group - 1), id, Releasing)
    case Release(id) => DoRelease(p, id)
    case Close => p.(closed := true)
    case CloseAndWait(who) => p.(closed := true, closers := p.closers[who := Waiting])
    case SeeDrained(who) => p.(closers := p.closers[who := AnsweredTrue])
    case TimeOut(who) => p.(closers := p.closers[who := AnsweredFalse])
  }

  // ---------------------------------------------------------------- what is counted

  /** The wait group still waits for it. */
  predicate Pending(phase: Phase) {
    phase.Admitted? || phase.Accepted? || phase.Running? || phase.BodyDone? || phase.Refused?
  }

  function PendingSubs(p: Pool): set<int> {
    set id | id in p.subs && Pending(p.subs[id].phase)
  }

  /** The submissions of a key that hold a permit. */
  function Holders(p: Pool, key: string): set<int> {
    set id | id in p.subs && p.subs[id].key == key && (Pending(p.subs[id].phase) || p.subs[id].phase.Releasing?)
  }

  ghost predicate Counted(p: Pool) {
    && p.group == |PendingSubs(p)|
    && (p.limit > 0 ==> forall key :: Permits(p, key) == |Holders(p, key)| <= p.limit)
  }

  ghost predicate Drained(p: Pool) {
    p.closed && forall id :: id in p.subs ==> !Pending(p.subs[id].phase)
  }

  ghost predicate Inv(p: Pool) {
    && Counted(p)
    && (p.closers != map[] ==> p.closed)
    && (forall who :: who in p.closers && p.closers[who].AnsweredTrue? ==> Drained(p))
  }

  lemma HoldersAfterEnter(p: Pool, id: int, key: string, k: string)
    requires id !in p.subs
    ensures Holders(DoEnter(p, id, key), k) == Holders(p, k) + if !TurnsAway(p, key) && k == key then {id} else {}
    ensures id !in Holders(p, k)
  {
  }

  lemma PendingAfterEnter(p: Pool, id: int, key: string)
    requires id !in p.subs && p.group == |PendingSubs(p)|
    ensures DoEnter(p, id, key).group == |PendingSubs(DoEnter(p, id, key))|
  {
    var p' := DoEnter(p, id, key);
    if TurnsAway(p, key) {
      assert PendingSubs(p') == PendingSubs(p);
    } else {
      assert PendingSubs(p') == PendingSubs(p) + {id};
    }
  }

  lemma PermitsAfterEnter(p: Pool, id: int, key: string, k: string)
    requires id !in p.subs && p.limit > 0 && Permits(p, k) == |Holders(p, k)| <= p.limit
    ensures Permits(DoEnter(p, id, key), k) == |Holders(DoEnter(p, id, key), k)| <= p.limit
  {
    HoldersAfterEnter(p, id, key, k);
  }

  lemma EnterCounts(p: Pool, id: int, key: string)
    requires Counted(p) && id !in p.subs
    ensures Counted(DoEnter(p, id, key))
  {
    PendingAfterEnter(p, id, key);
    if p.limit > 0 {
      forall k {
        PermitsAfterEnter(p, id, key, k);
      }
    }
  }

  /** A change of phase that leaves the counts alone. */
  lemma PutSame(p: Pool, id: int, phase: Phase)
    requires Counted(p) && id in p.subs && Pending(p.subs[id].phase) && Pending(phase)
    ensures Counted(Put(p, id, phase))
  {
    assert PendingSubs(Put(p, id, phase)) == PendingSubs(p);
    assert forall k :: Holders(Put(p, id, phase), k) == Holders(p, k);
  }

  lemma DoneCounts(p: Pool, id: int)
    requires Counted(p) && id in p.subs && Pending(p.subs[id].phase)
    ensures Counted(Put(p.(group := p.group - 1), id, Releasing))
  {
    var p' := Put(p.(group := p.group - 1), id, Releasing);
    assert PendingSubs(p') == PendingSubs(p) - {id};
    assert forall k :: Holders(p', k) == Holders(p, k);
  }

  lemma HoldersAfterRelease(p: Pool, id: int, k: string)
    requires At(p, id, Releasing)
    ensures Holders(DoRelease(p, id), k) == Holders(p, k) - if k == p.subs[id].key then {id} else {}
    ensures k == p.subs[id].key ==> id in Holders(p, k)
  {
  }

  lemma ReleaseCounts(p: Pool, id: int)
    requires Counted(p) && At(p, id, Releasing)
    ensures Counted(DoRelease(p, id))
  {
    var p' := DoRelease(p, id);
    assert PendingSubs(p') == PendingSubs(p);
    if p.limit > 0 {
      forall k
        ensures Permits(p', k) == |Holders(p', k)| <= p.limit
      {
        HoldersAfterRelease(p, id, k);
      }
    }
  }

  lemma StepCounts(p: Pool, s: Step)
    requires Enabled(p, s) && Counted(p)
    ensures Counted(Do(p, s))
  {
    match s
    case Enter(id, key) => EnterCounts(p, id, key);
    case HandOver(id, accepted) => PutSame(p, id, if accepted then Accepted else Refused);
    case Start(id) => PutSame(p, id, Running);
    case End(id) => PutSame(p, id, BodyDone);
    case Done(id) => DoneCounts(p, id);
    case Release(id) => ReleaseCounts(p, id);
    case _ =>
      assert PendingSubs(Do(p, s)) == PendingSubs(p);
      assert forall k :: Holders(Do(p, s), k) == Holders(p, k);
  }

  lemma GroupZero(p: Pool)
    requires Counted(p) && p.group == 0 && p.closed
    ensures Drained(p)
  {
    forall id | id in p.subs
      ensures !Pending(p.subs[id].phase)
    {
      assert Pending(p.subs[id].phase) ==> id in PendingSubs(p);
    }
  }

  lemma DrainedStays(p: Pool, s: Step)
    requires Enabled(p, s) && Drained(p)
    ensures Drained(Do(p, s)) && !s.HandOver? && !s.Start? && !s.End?
  {
  }

  lemma StepInv(p: Pool, s: Step)
    requires Enabled(p, s) && Inv(p)
    ensures Inv(Do(p, s))
  {
    StepCounts(p, s);
    if s.SeeDrained? {
      GroupZero(p);
    }
    if Drained(p) {
      DrainedStays(p, s);
    }
  }

  // ---------------------------------------------------------------- every run

  function Fresh(option: int): Pool {
    Pool(Limit(option), false, 0, map[], map[], map[])
  }

  ghost predicate IsRun(p: Pool, steps: seq<Step>)
    decreases |steps|
  {
    steps == [] || (Enabled(p, steps[0]) && IsRun(Do(p, steps[0]), steps[1..]))
  }

  ghost function After(p: Pool, steps: seq<Step>): Pool
    requires IsRun(p, steps)
    decreases |steps|
  {
    if steps == [] then p else After(Do(p, steps[0]), steps[1..])
  }

  lemma {:induction false} EveryRun(p: Pool, steps: seq<Step>)
    requires IsRun(p, steps) && Inv(p)
    ensures Inv(After(p, steps))
    ensures After(p, steps).limit == p.limit
    decreases |steps|
  {
    if steps == [] {
    } else {
      StepInv(p, steps[0]);
      EveryRun(Do(p, steps[0]), steps[1..]);
    }
  }

  lemma FreshInv(option: int)
    ensures Inv(Fresh(option))
  {
    var p := Fresh(option);
    assert PendingSubs(p) == {};
    assert forall k :: Holders(p, k) == {};
  }

  /** The permits a key holds are exactly its submissions that entered and did not yet release, and
      never more than the limit, whether tasks return, panic or are refused. */
  lemma PermitsAreHolders(option: int, steps: seq<Step>, key: string)
    requires IsRun(Fresh(option), steps) && option >= 0
    ensures var p := After(Fresh(option), steps);
            Permits(p, key) == |Holders(p, key)| <= if option == 0 then 8 else option
  {
    FreshInv(option);
    EveryRun(Fresh(option), steps);
  }

  lemma {:induction false} ClosedTurnsAway(p: Pool, more: seq<Step>, id: int)
    requires IsRun(p, more) && p.closed && (id in p.subs ==> p.subs[id].phase.TurnedAway?)
    ensures After(p, more).closed && (id in After(p, more).subs ==> After(p, more).subs[id].phase.TurnedAway?)
    decreases |more|
  {
    if more == [] {
    } else {
      ClosedTurnsAway(Do(p, more[0]), more[1..], id);
    }
  }

  /** However the pool was closed, whoever submits afterwards is turned away. */
  lemma ClosedForGood(p: Pool, close: Step, more: seq<Step>, id: int)
    requires (close.Close? || close.CloseAndWait?) && Enabled(p, close) && IsRun(Do(p, close), more) && id !in p.subs
    ensures id in After(Do(p, close), more).subs ==> After(Do(p, close), more).subs[id].phase.TurnedAway?
  {
    ClosedTurnsAway(Do(p, close), more, id);
  }

  lemma {:induction false} StaysDrained(p: Pool, more: seq<Step>)
    requires IsRun(p, more) && Drained(p)
    ensures Drained(After(p, more))
    ensures forall i :: 0 <= i < |more| ==> !more[i].HandOver? && !more[i].Start? && !more[i].End?
    decreases |more|
  {
    if more == [] {
    } else {
      DrainedStays(p, more[0]);
      StaysDrained(Do(p, more[0]), more[1..]);
      assert more == [more[0]] + more[1..];
    }
  }

  /** Drain on close: when CloseWithTimeout has answered true, every accepted body has ended, and in no
      continuation whatsoever does another one start, run or get accepted. */
  lemma DrainOnClose(option: int, steps: seq<Step>, who: int, more: seq<Step>)
    requires IsRun(Fresh(option), steps)
    requires var p := After(Fresh(option), steps);
             who in p.closers && p.closers[who].AnsweredTrue? && IsRun(p, more)
    ensures var p := After(After(Fresh(option), steps), more);
            forall id :: id in p.subs ==>
              p.subs[id].phase.TurnedAway? || p.subs[id].phase.Releasing? || p.subs[id].phase.Finished?
    ensures forall i :: 0 <= i < |more| ==> !more[i].HandOver? && !more[i].Start? && !more[i].End?
  {
    FreshInv(option);
    EveryRun(Fresh(option), steps);
    StaysDrained(After(Fresh(option), steps), more);
  }

  /** The answer is not late either: once the pool is closed and nothing is pending, a waiting closer
      can answer true, and before that it cannot. */
  lemma TrueExactlyWhenDrained(option: int, steps: seq<Step>, who: int)
    requires IsRun(Fresh(option), steps)
    requires var p := After(Fresh(option), steps); who in p.closers && p.closers[who].Waiting?
    ensures var p := After(Fresh(option), steps); Enabled(p, SeeDrained(who)) <==> Drained(p)
  {
    FreshInv(option);
    EveryRun(Fresh(option), steps);
    var p := After(Fresh(option), steps);
    if p.group == 0 {
      GroupZero(p);
    }
    if Drained(p) {
      forall id
        ensures id !in PendingSubs(p)
      {
      }
      assert PendingSubs(p) == {};
    }
  }

  // ---------------------------------------------------------------- the methods

  lemma {:induction false} RunAppend(p: Pool, steps: seq<Step>, s: Step)
    requires IsRun(p, steps) && Enabled(After(p, steps), s)
    ensures IsRun(p, steps + [s]) && After(p, steps + [s]) == Do(After(p, steps), s)
    decreases |steps|
  {
    if steps == [] {
      assert ([] + [s])[1..] == [];
    } else {
      RunAppend(Do(p, steps[0]), steps[1..], s);
      assert (steps + [s])[1..] == steps[1..] + [s];
    }
  }

  /** The step concerns this submission. */
  predicate Concerns(s: Step, id: int) {
    match s
    case Enter(i, _) => i == id
    case HandOver(i, _) => i == id
    case Start(i) => i == id
    case End(i) => i == id
    case Done(i) => i == id
    case Release(i) => i == id
    case _ => false
  }

  datatype Answer = Nil | Closed | Busy | PoolRefused

  /** The pool as the source writes it, method by method, with steps of others in between. */
  class KeyedConsumerPool {
    var pool: Pool

    ghost const option: int
    ghost var trace: seq<Step>

    constructor (option: int)
      ensures Valid() && pool == Fresh(option)
    {
      this.option, trace := option, [];
      pool := Fresh(option);
    }

    ghost predicate Valid()
      reads this
    {
      IsRun(Fresh(option), trace) && After(Fresh(option), trace) == pool
    }

    method Take(s: Step)
      requires Valid() && Enabled(pool, s)
      modifies this
      ensures Valid() && pool == Do(old(pool), s)
    {
      RunAppend(Fresh(option), trace, s);
      pool := Do(pool, s);
      trace := trace + [s];
    }

    /** Others move on; what is not possible now does not happen. */
    method Meanwhile(id: int, steps: seq<Step>)
      requires Valid()
      modifies this
      ensures Valid() && (id in pool.subs <==> id in old(pool).subs) &&
              (id in pool.subs ==> pool.subs[id] == old(pool).subs[id])
    {
      for i := 0 to |steps|
        invariant Valid() && (id in pool.subs <==> id in old(pool).subs) &&
                  (id in pool.subs ==> pool.subs[id] == old(pool).subs[id])
      {
        if !Concerns(steps[i], id) && Enabled(pool, steps[i]) {
          Take(steps[i]);
        }
      }
    }

    /** Submit of a task that is not nil. It answers nil exactly when the task was accepted; every
        other answer leaves neither permit nor wait group behind. */
    method Submit(id: int, key: string, poolAccepts: bool, others: nat -> seq<Step>) returns (r: Answer)
      requires Valid() && id !in pool.subs
      modifies this
      ensures Valid() && id in pool.subs && pool.subs[id].key == key
      ensures r.Closed? <==> old(pool).closed
      ensures r.Busy? <==>
                !old(pool).closed && option >= 0 && Permits(old(pool), key) >= if option == 0 then 8 else option
      ensures r.Nil? ==> poolAccepts && pool.subs[id].phase.Accepted?
      ensures r.PoolRefused? ==> !poolAccepts && pool.subs[id].phase.Finished?
      ensures r.Closed? || r.Busy? ==> pool.subs[id].phase.TurnedAway?
      ensures pool.limit == old(pool).limit
    {
      LimitKept();
      var before := pool;
      Take(Enter(id, key));
      if before.closed {
        return Closed;
      }
      if before.limit > 0 && Permits(before, key) >= before.limit {
        return Busy;
      }
      LimitKept();
      Meanwhile(id, others(0));
      Take(HandOver(id, poolAccepts));
      if poolAccepts {
        LimitKept();
        return Nil;
      }
      Take(Done(id));
      Meanwhile(id, others(1));
      Take(Release(id));
      LimitKept();
      return PoolRefused;
    }

    lemma LimitKept()
      requires Valid()
      ensures pool.limit == Limit(option)
    {
      FreshInv(option);
      EveryRun(Fresh(option), trace);
    }

    /** What the worker runs for an accepted task: the body, which may panic, then the deferred calls. */
    method RunTask(id: int, others: nat -> seq<Step>)
      requires Valid() && At(pool, id, Accepted)
      modifies this
      ensures Valid() && At(pool, id, Finished)
    {
      Take(Start(id));
      Meanwhile(id, others(0));
      Take(End(id));
      Meanwhile(id, others(1));
      Take(Done(id));
      Meanwhile(id, others(2));
      Take(Release(id));
    }

    /** CloseWithTimeout while the others make these steps. It answers true only once the pool is drained,
        false only at its timeout, which may win against a drain that comes at the same time (`tie`).
        Without a timeout (`timed` is false) it answers true exactly when the pool is drained, and waits on,
        with no answer yet, as long as it is not. */
    method CloseWithTimeout(who: int, timed: bool, tie: bool, others: seq<Step>) returns (answer: Option<bool>)
      requires Valid() && who !in pool.closers
      modifies this
      ensures Valid() && pool.closed && who in pool.closers
      ensures answer == Some(true) <==> pool.closers[who].AnsweredTrue?
      ensures answer == Some(false) <==> pool.closers[who].AnsweredFalse?
      ensures answer == Some(true) ==> Drained(pool)
      ensures Drained(pool) && !(timed && tie) ==> answer == Some(true)
      ensures answer == Some(false) ==> timed
      ensures answer.None? ==> !timed
    {
      Take(CloseAndWait(who));
      var i := 0;
      while i < |others| && pool.group != 0
        invariant 0 <= i <= |others|
        invariant Valid() && who in pool.closers && pool.closers[who].Waiting? && pool.closed
      {
        if Enabled(pool, others[i]) && !AnswersFor(others[i], who) {
          Take(others[i]);
        }
        i := i + 1;
      }
      FreshInv(option);
      EveryRun(Fresh(option), trace);
      if pool.group == 0 && !(timed && tie) {
        GroupZero(pool);
        Take(SeeDrained(who));
        return Some(true);
      }
      if pool.group != 0 {
        NotYetDrained(pool);
      }
      if timed {
        Take(TimeOut(who));
        return Some(false);
      }
      return None;
    }
  }

  lemma NotYetDrained(p: Pool)
    requires Counted(p) && p.group != 0
    ensures !Drained(p)
  {
    var id := Sums.SomeElement(PendingSubs(p));
    assert Pending(p.subs[id].phase);
  }

  predicate AnswersFor(s: Step, who: int) {
    s == SeeDrained(who) || s == TimeOut(who)
  }
}
