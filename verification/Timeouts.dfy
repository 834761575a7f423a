/**
  The job that cancels unpaid orders: it drains the delay queue
  (backend/internal/order/infra/delay_queue/redis_zset.go), looks at every drained order, cancels
  the unpaid ones in one batch, and puts back what it could not settle
  (backend/internal/order/job/dispatch_order_timeout.go).
 */
module Timeouts {
  import opened Orders

  const CLAIM_BATCH := 100

  datatype Entry = Entry(id: int, at: int)

  /** The entries due at time t, and the others, both in queue order. */
  function Due(q: seq<Entry>, t: int): (r: seq<Entry>)
    ensures |r| <= |q|
  {
    if q == [] then [] else (if q[0].at <= t then [q[0]] else []) + Due(q[1..], t)
  }

  function Later(q: seq<Entry>, t: int): seq<Entry> {
    if q == [] then [] else (if q[0].at <= t then [] else [q[0]]) + Later(q[1..], t)
  }

  function Ids(q: seq<Entry>): seq<int> {
    seq(|q|, i requires 0 <= i < |q| => q[i].id)
  }

  lemma {:induction false} LaterFront(x: seq<Entry>, y: seq<Entry>, t: int)
    requires forall e :: e in x ==> e.at > t
    ensures Due(x + y, t) == Due(y, t)
    ensures Later(x + y, t) == x + Later(y, t)
  {
    if x == [] {
      assert x + y == y;
    } else {
      LaterFront(x[1..], y, t);
      LaterFirst(x[0], x[1..] + y, t);
      assert x + y == [x[0]] + (x[1..] + y);
      assert x + Later(y, t) == [x[0]] + (x[1..] + Later(y, t));
    }
  }

  lemma LaterFirst(e: Entry, q: seq<Entry>, t: int)
    requires e.at > t
    ensures Due([e] + q, t) == Due(q, t) && Later([e] + q, t) == [e] + Later(q, t)
  {
    assert ([e] + q)[1..] == q;
  }

  lemma Regroup(front: seq<Entry>, e: Entry, rest: seq<Entry>)
    ensures front + ([e] + rest) == front + [e] + rest
    ensures front + ([] + rest) == front + rest
  {
    assert [] + rest == rest;
  }

  lemma FirstOf(q: seq<Entry>, i: nat, t: int)
    requires i < |q|
    ensures Due(q[i..], t) == (if q[i].at <= t then [q[i]] else []) + Due(q[i + 1..], t)
    ensures Later(q[i..], t) == (if q[i].at <= t then [] else [q[i]]) + Later(q[i + 1..], t)
  {
    assert q[i..][1..] == q[i + 1..];
  }

  lemma {:induction false} DueLater(q: seq<Entry>, t: int)
    ensures forall e :: e in Due(q, t) <==> e in q && e.at <= t
    ensures forall e :: e in Later(q, t) <==> e in q && e.at > t
    ensures Due(q, t) == [] ==> q == Later(q, t)
  {
    if q == [] {
    } else {
      DueLater(q[1..], t);
      assert q == [q[0]] + q[1..];
    }
  }

  // ---------------------------------------------------------------- one order

  datatype Payment = ConfirmError | NotPaid | PaidUp

  /** What the job meets when it looks at an order: whether its reads work, the payment service's answer,
      whether the outbox insert works if it has to mark the order paid, and what others do to the orders
      before its n-th access. */
  datatype View = View(readOk: bool, payment: Payment, rereadOk: bool, addOk: bool, others: nat -> seq<Op>)

  datatype Verdict = ToCancel | Skip | Fail

  lemma {:induction false} RunAppend(ops: seq<Op>, op: Op)
    requires IsRun(ops) && WellFormed(op)
    ensures IsRun(ops + [op]) && After(ops + [op]) == Do(After(ops), op)
  {
    assert (ops + [op])[..|ops|] == ops;
  }

  /** The order existed and is still waiting for its payment. */
  predicate StillCreated(before: Db, now: Db, id: int) {
    id in before.status && (id in now.status ==> now.status[id] == Created)
  }

  /** What others really do: a malformed request is none. */
  function Possible(others: seq<Op>): seq<Op> {
    if others == [] then []
    else Possible(others[..|others| - 1]) + if WellFormed(others[|others| - 1]) then [others[|others| - 1]] else []
  }

  lemma {:induction false} PossibleAre(others: seq<Op>)
    ensures forall op :: op in Possible(others) ==> op in others
    decreases |others|
  {
    if others == [] {
    } else {
      PossibleAre(others[..|others| - 1]);
    }
  }

  /** What may happen to the orders while the job looks at one of them: what others do, and its own change
      to PAID of an order that the payment service reports as paid. */
  ghost predicate OfLook(op: Op, id: int, v: View) {
    (op.Change? && op.id == id && op.action == Pay && v.payment.PaidUp?) || exists n: nat :: op in v.others(n)
  }

  /** What may happen to them while the job cancels a batch. */
  ghost predicate OfBatch(op: Op, ids: seq<int>, batch: View) {
    (op.CancelBatch? && op.ids == ids) || exists n: nat :: op in batch.others(n)
  }

  /** What may happen to them while the job runs. Its own transactions change to PAID an order reported as
      paid, or cancel a batch of orders reported as not paid; the rest is done by others. */
  ghost predicate OfRun(op: Op, ids: seq<int>, view: int -> View, batch: View) {
    || (exists id :: id in ids && OfLook(op, id, view(id)))
    || (op.CancelBatch? && forall id :: id in op.ids ==> id in ids && view(id).payment.NotPaid?)
    || (exists n: nat :: op in batch.others(n))
  }

  // ---------------------------------------------------------------- the job

  /** The job with the delay queue and the order database that it shares with everybody else. */
  class DispatchOrderTimeoutJob {
    var queue: seq<Entry>
    var db: Db

    /** Every transaction on the orders so far, the job's own and others'. */
    ghost var ops: seq<Op>

    constructor (queue: seq<Entry>)
      ensures Valid() && this.queue == queue && db == Db(map[], [])
    {
      this.queue, db, ops := queue, Db(map[], []), [];
    }

    ghost predicate Valid()
      reads this
    {
      IsRun(ops) && After(ops) == db
    }

    /** ZClaimByScore: takes at most CLAIM_BATCH due entries out of the queue. */
    method Claim(t: int) returns (page: seq<Entry>)
      modifies this`queue
      ensures page + Due(queue, t) == Due(old(queue), t) && Later(queue, t) == Later(old(queue), t)
      ensures |page| <= CLAIM_BATCH && (|page| < CLAIM_BATCH ==> Due(queue, t) == [])
    {
      page := [];
      var kept, i := [], 0;
      while i < |queue| && |page| < CLAIM_BATCH
        modifies {}
        invariant 0 <= i <= |queue| && |page| <= CLAIM_BATCH
        invariant page + Due(queue[i..], t) == Due(queue, t)
        invariant kept + Later(queue[i..], t) == Later(queue, t)
        invariant forall e :: e in kept ==> e.at > t
      {
        var e := queue[i];
        FirstOf(queue, i, t);
        Regroup(page, e, Due(queue[i + 1..], t));
        Regroup(kept, e, Later(queue[i + 1..], t));
        if e.at <= t {
          page := page + [e];
        } else {
          kept := kept + [e];
        }
        i := i + 1;
      }
      LaterFront(kept, queue[i..], t);
      queue := kept + queue[i..];
    }

    /** DrainDue. `failAt` is the number of the claim that Redis answers with an error, or negative. A
        drain that succeeds takes out exactly the due entries. It fails if and only if it comes to that
        claim; then it hands nothing to its caller, and what the earlier claims took out is lost. */
    method DrainDue(t: int, failAt: int) returns (ok: bool, drained: seq<Entry>, ghost lost: seq<Entry>)
      modifies this`queue
      ensures Later(queue, t) == Later(old(queue), t)
      ensures ok ==> drained == Due(old(queue), t) && Due(queue, t) == [] && lost == []
      ensures !ok ==> drained == [] && lost + Due(queue, t) == Due(old(queue), t)
      ensures !ok <==> 0 <= failAt && CLAIM_BATCH * failAt <= |Due(old(queue), t)|
      ensures !ok ==> |lost| == CLAIM_BATCH * failAt
      ensures lost != [] <==> 0 < failAt && CLAIM_BATCH * failAt <= |Due(old(queue), t)|
    {
      drained, lost := [], [];
      var claims := 0;
      while true
        invariant drained + Due(queue, t) == Due(old(queue), t) && Later(queue, t) == Later(old(queue), t)
        invariant claims >= 0 && |drained| == CLAIM_BATCH * claims && lost == []
        invariant failAt < 0 || failAt >= claims
        decreases |Due(queue, t)|
      {
        if claims == failAt {
          return false, [], drained;
        }
        var page := Claim(t);
        if |page| == 0 {
          return true, drained, [];
        }
        drained := drained + page;
        if |page| < CLAIM_BATCH {
          return true, drained, [];
        }
        claims := claims + 1;
      }
    }

    /** requeue: a failed Enqueue is logged and that id is gone. */
    method Requeue(ids: seq<int>, now: int, enqueueOk: int -> bool)
      modifies this`queue
      ensures forall e :: e in queue <==>
              (e in old(queue) && !(e.id in ids && enqueueOk(e.id))) || (e.id in ids && enqueueOk(e.id) && e.at == now)
    {
      for i := 0 to |ids|
        invariant forall e :: e in queue <==>
                    (e in old(queue) && !(e.id in ids[..i] && enqueueOk(e.id))) ||
                      (e.id in ids[..i] && enqueueOk(e.id) && e.at == now)
      {
        assert ids[..i + 1] == ids[..i] + [ids[i]];
        if enqueueOk(ids[i]) {
          Enqueue(ids[i], now);
        }
      }
      assert ids[..|ids|] == ids;
    }

    /** Enqueue: ZADD, which moves a member that is already there. */
    method Enqueue(id: int, at: int)
      modifies this`queue
      ensures forall e :: e in queue <==> (e in old(queue) && e.id != id) || e == Entry(id, at)
    {
      var kept := [];
      for i := 0 to |queue|
        invariant queue == old(queue)
        invariant forall e :: e in kept <==> e in queue[..i] && e.id != id
      {
        assert queue[..i + 1] == queue[..i] + [queue[i]];
        if queue[i].id != id {
          kept := kept + [queue[i]];
        }
      }
      assert queue[..|queue|] == queue;
      queue := kept + [Entry(id, at)];
    }

    method Transact(op: Op)
      requires Valid() && WellFormed(op)
      modifies this`db, this`ops
      ensures Valid() && db == Do(old(db), op) && ops == old(ops) + [op] && Advances(old(db), db)
    {
      RunAppend(ops, op);
      DoAdvances(db, op);
      db := Do(db, op);
      ops := ops + [op];
    }

    /** Others change orders. */
    method Meanwhile(others: seq<Op>)
      requires Valid()
      modifies this`db, this`ops
      ensures Valid() && Advances(old(db), db) && ops == old(ops) + Possible(others)
      ensures others == [] ==> db == old(db)
    {
      for i := 0 to |others|
        invariant Valid() && Advances(old(db), db) && ops == old(ops) + Possible(others[..i])
        invariant i == 0 ==> db == old(db)
      {
        assert others[..i + 1][..i] == others[..i];
        if WellFormed(others[i]) {
          Transact(others[i]);
        }
      }
      assert others[..|others|] == others;
    }

    /** shouldCancelDueOrder. A skipped order is CREATED no more, or did not exist. */
    method ShouldCancel(id: int, v: View) returns (r: Verdict)
      requires Valid()
      modifies this`db, this`ops
      ensures Valid() && Advances(old(db), db)
      ensures r.ToCancel? <==> v.readOk && id in old(db).status && old(db).status[id] == Created && v.payment.NotPaid?
      ensures r.Skip? ==> !StillCreated(old(db), db, id)
      ensures r.Fail? ==> !v.readOk || v.payment.ConfirmError? || (v.payment.PaidUp? && (!v.rereadOk || !v.addOk))
      ensures old(ops) <= ops && forall i :: |old(ops)| <= i < |ops| ==> OfLook(ops[i], id, v)
      ensures v.readOk && id in old(db).status && old(db).status[id] == Created && v.payment.PaidUp? &&
              v.rereadOk && v.addOk && v.others(0) == v.others(1) == [] ==>
                r.Skip? && db == Db(old(db).status[id := Paid], old(db).outbox + [Row(id, Paid)])
    {
      if !v.readOk { return Fail; }
      if id !in db.status { return Skip; }
      if db.status[id] != Created { return Skip; }
      Meanwhile(v.others(0));
      PossibleAre(v.others(0));
      if v.payment.ConfirmError? { return Fail; }
      if v.payment.PaidUp? {
        r := MarkPaid(id, v);
        return;
      }
      return ToCancel;
    }

    /** ChangeOrderStatusUseCase.Execute with the action Pay, and what the job makes of its answer: it
        read the status itself, and others may change it again before the update. */
    method MarkPaid(id: int, v: View) returns (r: Verdict)
      requires Valid() && id in db.status && v.payment.PaidUp?
      modifies this`db, this`ops
      ensures Valid() && Advances(old(db), db)
      ensures r == Skip || r == Fail
      ensures r.Skip? ==> id in db.status && db.status[id] != Created
      ensures r.Fail? ==> !v.rereadOk || !v.addOk
      ensures old(ops) <= ops && forall i :: |old(ops)| <= i < |ops| ==> OfLook(ops[i], id, v)
      ensures old(db).status[id] == Created && v.rereadOk && v.addOk && v.others(1) == [] ==>
                r.Skip? && db == Db(old(db).status[id := Paid], old(db).outbox + [Row(id, Paid)])
    {
      if !v.rereadOk { return Fail; }
      var seen := db.status[id];
      Meanwhile(v.others(1));
      PossibleAre(v.others(1));
      var db', outcome := ChangeStatus(db, id, Pay, seen, v.addOk);
      Transact(Change(id, Pay, seen, v.addOk));
      assert db == db';
      if outcome.Failed? { return Fail; }
      return Skip;
    }

    /** Run. Everything else that happens to the orders happens in `others` of the views and of the batch.
        After a run that ends well no drained order is CREATED any more, unless it came into being only
        now; after one that does not, every drained order that still is goes back into the queue. The run
        cancels only orders that the payment service said were not paid, and none that anybody paid. */
    method Run(now: int, failAt: int, view: int -> View, batch: View, enqueueOk: int -> bool)
      returns (ok: bool, drained: seq<Entry>, ghost canceled: seq<int>, ghost lost: seq<Entry>)
      requires Valid()
      modifies this
      ensures Valid() && Advances(old(db), db)
      ensures drained + lost <= Due(old(queue), now) && (drained == [] || lost == [])
      ensures lost != [] <==> 0 < failAt && CLAIM_BATCH * failAt <= |Due(old(queue), now)|
      ensures ok ==> drained == Due(old(queue), now) && queue == Later(old(queue), now)
      ensures ok ==> forall e :: e in drained ==> !StillCreated(old(db), db, e.id)
      ensures !ok ==> canceled == []
      ensures !ok ==> forall e :: e in drained && StillCreated(old(db), db, e.id) && enqueueOk(e.id) ==>
              Entry(e.id, now) in queue
      ensures forall e :: e in Later(old(queue), now) && e.id !in Ids(drained) ==> e in queue
      ensures forall e :: e in queue ==> e in old(queue) || (e.id in Ids(drained) && e.at == now)
      ensures forall id :: id in canceled ==>
                && id in Ids(drained) && view(id).payment.NotPaid?
                && id in db.status && db.status[id] == Canceled && Paid !in RowsOf(db.outbox, id)
      ensures old(ops) <= ops
      ensures forall i :: |old(ops)| <= i < |ops| ==> OfRun(ops[i], Ids(drained), view, batch)
    {
      var drainOk;
      canceled := [];
      drainOk, drained, lost := DrainDue(now, failAt);
      DueLater(old(queue), now);
      DueLater(queue, now);
      if !drainOk {
        return false, drained, [], lost;
      }
      ok, canceled := Dispatch(now, Ids(drained), view, batch, enqueueOk);
      forall e | e in drained
        ensures e.id in Ids(drained)
      {
        var i :| 0 <= i < |drained| && drained[i] == e;
        assert Ids(drained)[i] == e.id;
      }
    }

    /** The part of Run after the drain. */
    method Dispatch(now: int, ids: seq<int>, view: int -> View, batch: View, enqueueOk: int -> bool)
      returns (ok: bool, ghost canceled: seq<int>)
      requires Valid()
      modifies this
      ensures Valid() && Advances(old(db), db)
      ensures ok ==> queue == old(queue) && forall id :: id in ids ==> !StillCreated(old(db), db, id)
      ensures !ok ==> canceled == []
      ensures !ok ==> forall id :: id in ids && StillCreated(old(db), db, id) && enqueueOk(id) ==>
              Entry(id, now) in queue
      ensures forall e :: e in old(queue) && e.id !in ids ==> e in queue
      ensures forall e :: e in queue ==> e in old(queue) || (e.id in ids && e.at == now)
      ensures forall id :: id in canceled ==>
                && id in ids && view(id).payment.NotPaid?
                && id in db.status && db.status[id] == Canceled && Paid !in RowsOf(db.outbox, id)
      ensures old(ops) <= ops && forall i :: |old(ops)| <= i < |ops| ==> OfRun(ops[i], ids, view, batch)
    {
      ok, canceled := true, [];
      var toCancel: seq<int> := [];
      for i := 0 to |ids|
        invariant Valid() && Advances(old(db), db) && queue == old(queue)
        invariant forall id :: id in toCancel ==> id in ids[..i] && view(id).payment.NotPaid?
        invariant forall id :: id in ids[..i] && StillCreated(old(db), db, id) ==> id in toCancel
        invariant old(ops) <= ops && forall k :: |old(ops)| <= k < |ops| ==> OfRun(ops[k], ids, view, batch)
      {
        assert ids[..i + 1] == ids[..i] + [ids[i]];
        ghost var before := ops;
        var verdict := ShouldCancel(ids[i], view(ids[i]));
        assert forall k :: |before| <= k < |ops| ==> OfLook(ops[k], ids[i], view(ids[i]));
        if verdict.Fail? {
          ok := false;
          Requeue(toCancel + ids[i..], now, enqueueOk);
          assert ids == ids[..i] + ids[i..];
          return;
        }
        if verdict.ToCancel? {
          toCancel := toCancel + [ids[i]];
        }
      }
      assert ids[..|ids|] == ids;
      if |toCancel| == 0 {
        return;
      }
      ghost var before := ops;
      ok, canceled := ExecuteBatch(toCancel, batch);
      assert forall k :: |before| <= k < |ops| ==> OfBatch(ops[k], toCancel, batch);
      if !ok {
        Requeue(toCancel, now, enqueueOk);
      }
    }

    /** BatchCancelOrderUseCase.Execute: FindByIDs fails when a row is missing, and others may change the
        orders between the read and the conditional update. */
    method ExecuteBatch(ids: seq<int>, batch: View) returns (ok: bool, ghost canceled: seq<int>)
      requires Valid()
      modifies this`db, this`ops
      ensures Valid() && Advances(old(db), db)
      ensures ok ==> forall id :: id in ids ==> !StillCreated(old(db), db, id)
      ensures !ok ==> canceled == []
      ensures forall id :: id in canceled ==>
                id in ids && id in db.status && db.status[id] == Canceled && Paid !in RowsOf(db.outbox, id)
      ensures old(ops) <= ops && forall i :: |old(ops)| <= i < |ops| ==> OfBatch(ops[i], ids, batch)
    {
      canceled := [];
      if !batch.readOk {
        return false, [];
      }
      var found, statuses := FindByIds(ids);
      if !found {
        return false, [];
      }
      Meanwhile(batch.others(0));
      PossibleAre(batch.others(0));
      ok, canceled := CancelRead(ids, statuses, batch.addOk);
    }

    /** The update of BatchCancelOrderUseCase.Execute, some time after the statuses were read. */
    method CancelRead(ids: seq<int>, statuses: seq<Status>, addOk: bool) returns (ok: bool, ghost canceled: seq<int>)
      requires Valid() && |ids| == |statuses|
      modifies this`db, this`ops
      ensures Valid() && Advances(old(db), db) && ops == old(ops) + [CancelBatch(ids, statuses, addOk)]
      ensures ok ==> forall i :: 0 <= i < |ids| && statuses[i] == Created ==> ids[i] in canceled
      ensures !ok ==> canceled == []
      ensures forall id :: id in canceled ==>
                id in ids && id in db.status && db.status[id] == Canceled && Paid !in RowsOf(db.outbox, id)
    {
      var db', done, tried := BatchCancel(db, ids, statuses, addOk);
      Transact(CancelBatch(ids, statuses, addOk));
      assert db == db';
      ok, canceled := done, if done then tried else [];
      forall i | 0 <= i < |ids| && statuses[i] == Created
        ensures ids[i] in tried
      {
        var id: int := ids[i];
        assert id in tried;
      }
      forall id | id in canceled
        ensures Paid !in RowsOf(db.outbox, id)
      {
        CanceledNeverPaid(ops, id);
      }
    }

    /** FindByIDs: the statuses in the order of the ids, or an error when one is missing. */
    method FindByIds(ids: seq<int>) returns (found: bool, statuses: seq<Status>)
      ensures found <==> forall i :: 0 <= i < |ids| ==> ids[i] in db.status
      ensures found ==> |statuses| == |ids| && forall i :: 0 <= i < |ids| ==> statuses[i] == db.status[ids[i]]
    {
      statuses := [];
      for i := 0 to |ids|
        invariant |statuses| == i && forall j :: 0 <= j < i ==> ids[j] in db.status && statuses[j] == db.status[ids[j]]
      {
        if ids[i] !in db.status {
          return false, statuses;
        }
        statuses := statuses + [db.status[ids[i]]];
      }
      found := true;
    }
  }

  lemma {:induction false} AllDue(q: seq<Entry>, t: int)
    requires forall e :: e in q ==> e.at <= t
    ensures Due(q, t) == q
  {
    if q == [] {
    } else {
      AllDue(q[1..], t);
    }
  }

  /** A hundred due orders and an error at the second claim: all hundred leave the queue and nobody has them. */
  method DrainLoses() returns (q: seq<Entry>, ok: bool, drained: seq<Entry>, left: seq<Entry>)
    ensures |q| == 100 && forall e :: e in q ==> e.at <= 0
    ensures !ok && drained == [] && left == []
  {
    q := seq(100, i => Entry(i, 0));
    AllDue(q, 0);
    var job := new DispatchOrderTimeoutJob(q);
    ghost var lost;
    ok, drained, lost := job.DrainDue(0, 1);
    assert |lost| == |q| && |Due(job.queue, 0)| == 0;
    DueLater(job.queue, 0);
    DueLater(q, 0);
    LaterNone(q, 0);
    left := job.queue;
  }

  lemma {:induction false} LaterNone(q: seq<Entry>, t: int)
    requires forall e :: e in q ==> e.at <= t
    ensures Later(q, t) == []
  {
    if q == [] {
    } else {
      LaterNone(q[1..], t);
    }
  }
}
