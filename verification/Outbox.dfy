/**
  The outbox workers (backend/internal/order/job/outbox_worker.go and
  backend/internal/payment/job/outbox_worker.go): a scheduled job that pages through the pending
  rows, sends them, counts failed sends and gives a row up after too many of them.
 */
module Outbox {
  import opened Collections
  import Sums

  const BATCH_SIZE := 100
  const MAX_RETRY := 5

  datatype RowStatus = Pending | Sent | Failed
  datatype OutboxRow = OutboxRow(status: RowStatus, retry: nat)

  /** Sends a row can still cost: MAX_RETRY + 1 - retry while it is pending, and at least one. */
  function Weight(row: OutboxRow): nat {
    if !row.status.Pending? then 0
    else if row.retry <= MAX_RETRY then MAX_RETRY + 1 - row.retry
    else 1
  }

  function Weights(rows: map<int, OutboxRow>): map<int, int> {
    map id | id in rows :: Weight(rows[id])
  }

  ghost function Backlog(rows: map<int, OutboxRow>): (b: int) {
    Sums.Total(Weights(rows))
  }

  function PendingIds(rows: map<int, OutboxRow>): set<int> {
    set id | id in rows && IsPending(rows, id)
  }

  predicate IsPending(rows: map<int, OutboxRow>, id: int) {
    id in rows && rows[id].status.Pending?
  }

  predicate AllPending(rows: map<int, OutboxRow>, ids: seq<int>) {
    forall i :: 0 <= i < |ids| ==> IsPending(rows, ids[i])
  }

  lemma BacklogUpdate(rows: map<int, OutboxRow>, id: int, row: OutboxRow)
    requires id in rows
    ensures Backlog(rows[id := row]) == Backlog(rows) - Weight(rows[id]) + Weight(row)
  {
    Sums.TotalUpdate(Weights(rows), id, Weight(row));
    assert Weights(rows[id := row]) == Weights(rows)[id := Weight(row)];
  }

  /** The backlog is never negative, and zero exactly when no row is pending. */
  lemma BacklogZero(rows: map<int, OutboxRow>)
    ensures Backlog(rows) >= 0
    ensures Backlog(rows) == 0 <==> PendingIds(rows) == {}
  {
    assert forall id :: id in Weights(rows) ==> id in rows && Weights(rows)[id] >= 0;
    Sums.TotalNonNegative(Weights(rows));
    if PendingIds(rows) == {} {
      Sums.TotalZero(Weights(rows)) by {
        forall id | id in Weights(rows)
          ensures Weights(rows)[id] == 0
        {
          assert id !in PendingIds(rows);
        }
      }
    } else {
      var id := Sums.SomeElement(PendingIds(rows));
      assert id in Weights(rows) && Weights(rows)[id] >= 1;
    }
  }

  /** The same rows, none of them pending again. */
  ghost predicate NoneReopened(before: map<int, OutboxRow>, after: map<int, OutboxRow>) {
    after.Keys == before.Keys && forall id :: IsPending(after, id) ==> IsPending(before, id)
  }

  lemma PendingShrinks(before: map<int, OutboxRow>, after: map<int, OutboxRow>)
    requires NoneReopened(before, after)
    ensures |PendingIds(after)| <= |PendingIds(before)|
  {
    forall id | id in PendingIds(after)
      ensures id in PendingIds(before)
    {
      assert IsPending(after, id);
    }
    SubsetSize(PendingIds(after), PendingIds(before));
  }

  ghost predicate RetriesGrow(before: map<int, OutboxRow>, after: map<int, OutboxRow>) {
    after.Keys == before.Keys && forall id :: id in before ==> after[id].retry >= before[id].retry
  }

  ghost predicate SameStatuses(before: map<int, OutboxRow>, after: map<int, OutboxRow>) {
    after.Keys == before.Keys && forall id :: id in before ==> after[id].status == before[id].status
  }

  ghost predicate AllTried(before: map<int, OutboxRow>, after: map<int, OutboxRow>, arrived: set<int>) {
    after.Keys == before.Keys
    && forall id :: IsPending(before, id) ==> id in arrived || after[id].retry > before[id].retry
  }

  /** Nothing but rows going from PENDING to SENT. */
  ghost predicate OnlySent(before: map<int, OutboxRow>, after: map<int, OutboxRow>) {
    && after.Keys == before.Keys
    && forall id :: id in before ==>
         after[id] == before[id] || (before[id].status.Pending? && after[id] == before[id].(status := Sent))
  }

  /** How far the row writes of failed sends can be relied on: whether every count works, and whether every
      write of a row given up works, or none does. */
  datatype Writes = Writes(counts: bool, givesUp: bool, neverGivesUp: bool)

  /** What a refused send does to a row: one failed send more, and the sixth gives it up. */
  predicate Refused(before: OutboxRow, after: OutboxRow, w: Writes) {
    && (after.retry == before.retry + 1 || (!w.counts && after == before))
    && (after.status == before.status || (after.status.Failed? && after.retry >= 6 && !w.neverGivesUp))
    && (w.counts && w.givesUp && after.retry >= 6 ==> after.status.Failed?)
  }

  /** The answers to the first n sends of a batch, of which the first is send number `first`: a row that the
      broker took is left as it was, and the others are untouched. */
  ghost predicate Answered(before: map<int, OutboxRow>, now: map<int, OutboxRow>, ids: seq<int>, n: nat,
      broker: nat -> bool, first: nat, w: Writes)
    requires n <= |ids|
  {
    && now.Keys == before.Keys
    && (forall j :: 0 <= j < n && ids[j] in before ==>
          if broker(first + j) then now[ids[j]] == before[ids[j]] else Refused(before[ids[j]], now[ids[j]], w))
    && (forall j :: n <= j < |ids| && ids[j] in before ==> now[ids[j]] == before[ids[j]])
    && (forall id :: id in before && id !in ids ==> now[id] == before[id])
  }

  lemma AnsweredOn(before: map<int, OutboxRow>, earlier: map<int, OutboxRow>, now: map<int, OutboxRow>, ids: seq<int>,
      n: nat, broker: nat -> bool, first: nat, w: Writes)
    requires n < |ids| && Distinct(ids) && Answered(before, earlier, ids, n, broker, first, w)
    requires ids[n] in earlier && ids[n] in now && now == earlier[ids[n] := now[ids[n]]]
    requires if broker(first + n) then now == earlier else Refused(earlier[ids[n]], now[ids[n]], w)
    ensures Answered(before, now, ids, n + 1, broker, first, w)
  {
  }

  /** The rows that reached the broker are those whose send it took. */
  ghost predicate Arrived(ids: seq<int>, n: nat, broker: nat -> bool, first: nat, arrived: seq<int>)
    requires n <= |ids|
  {
    && Distinct(arrived)
    && (forall j :: 0 <= j < n ==> (ids[j] in arrived <==> broker(first + j)))
    && (forall id :: id in arrived ==> id in ids[..n])
  }

  lemma ArrivedOn(ids: seq<int>, n: nat, broker: nat -> bool, first: nat, arrived: seq<int>)
    requires n < |ids| && Distinct(ids) && Arrived(ids, n, broker, first, arrived)
    ensures Arrived(ids, n + 1, broker, first, if broker(first + n) then arrived + [ids[n]] else arrived)
    ensures Elements(arrived + [ids[n]]) == Elements(arrived) + {ids[n]}
  {
    assert forall id :: id in arrived + [ids[n]] <==> id in arrived || id == ids[n];
    assert ids[..n + 1] == ids[..n] + [ids[n]];
    assert ids[n] !in ids[..n];
    assert forall id :: id in arrived ==> id != ids[n];
    DistinctConcat(arrived, [ids[n]]);
  }

  /** The rows of a batch that the broker took. */
  ghost function Taken(ids: seq<int>, broker: nat -> bool, first: nat): set<int> {
    set j | 0 <= j < |ids| && broker(first + j) :: ids[j]
  }

  lemma ArrivedAreTaken(ids: seq<int>, broker: nat -> bool, first: nat, arrived: seq<int>)
    requires Arrived(ids, |ids|, broker, first, arrived)
    ensures Elements(arrived) == Taken(ids, broker, first)
  {
    assert ids[..|ids|] == ids;
    forall id | id in arrived
      ensures id in Taken(ids, broker, first)
    {
      assert id in ids[..|ids|];
      var j :| 0 <= j < |ids| && ids[j] == id;
      assert ids[j] in arrived;
    }
  }

  lemma AnsweredPending(before: map<int, OutboxRow>, now: map<int, OutboxRow>, ids: seq<int>, broker: nat -> bool,
      first: nat, w: Writes, arrived: seq<int>)
    requires AllPending(before, ids) && Answered(before, now, ids, |ids|, broker, first, w)
    requires Arrived(ids, |ids|, broker, first, arrived)
    ensures AllPending(now, arrived)
  {
    assert ids[..|ids|] == ids;
    forall i | 0 <= i < |arrived|
      ensures IsPending(now, arrived[i])
    {
      var id: int := arrived[i];
      assert id in arrived;
      assert id in ids[..|ids|];
      var j :| 0 <= j < |ids| && ids[j] == arrived[i];
      assert IsPending(before, ids[j]);
    }
  }

  /** What a batch makes of the rows: those that the broker took are SENT if they could be marked. */
  ghost predicate Processed(before: map<int, OutboxRow>, now: map<int, OutboxRow>, ids: seq<int>,
      broker: nat -> bool, first: nat, w: Writes)
  {
    && now.Keys == before.Keys
    && (forall j :: 0 <= j < |ids| && ids[j] in before ==>
          if broker(first + j) then
            now[ids[j]] == before[ids[j]].(status := Sent) || (!w.counts && now[ids[j]] == before[ids[j]])
          else Refused(before[ids[j]], now[ids[j]], w))
    && (forall id :: id in before && id !in ids ==> now[id] == before[id])
  }

  lemma MarkingProcesses(before: map<int, OutboxRow>, now: map<int, OutboxRow>, ids: seq<int>, broker: nat -> bool,
      first: nat, w: Writes, arrived: seq<int>)
    requires Answered(before, now, ids, |ids|, broker, first, w) && Arrived(ids, |ids|, broker, first, arrived)
    ensures Processed(before, MarkSent(now, arrived), ids, broker, first, w)
    ensures !w.counts || arrived == [] ==> Processed(before, now, ids, broker, first, w)
  {
    assert ids[..|ids|] == ids;
    if arrived == [] {
      forall j | 0 <= j < |ids|
        ensures ids[j] !in arrived && !broker(first + j)
      {
      }
    }
  }

  /** What that comes to, whatever the broker says. */
  lemma ProcessedFacts(before: map<int, OutboxRow>, now: map<int, OutboxRow>, ids: seq<int>, broker: nat -> bool,
      first: nat, w: Writes)
    requires AllPending(before, ids) && Processed(before, now, ids, broker, first, w)
    ensures NoneReopened(before, now) && RetriesGrow(before, now)
  {
    forall id: int | id in before
      ensures now[id].retry >= before[id].retry
      ensures IsPending(now, id) ==> IsPending(before, id)
    {
      if id in ids {
        var j :| 0 <= j < |ids| && ids[j] == id;
        assert IsPending(before, ids[j]);
      }
    }
  }

  /** A broker that is up and can be believed takes all of the batch out of the pending rows. */
  lemma ProcessedLeave(before: map<int, OutboxRow>, now: map<int, OutboxRow>, ids: seq<int>)
    requires Distinct(ids) && AllPending(before, ids) && OnlySent(before, now)
    requires forall j :: 0 <= j < |ids| ==> now[ids[j]].status.Sent?
    requires forall id :: id in before && id !in ids ==> now[id] == before[id]
    ensures |PendingIds(now)| == |PendingIds(before)| - |ids|
  {
    DistinctSize(ids);
    forall id: int
      ensures id in PendingIds(now) <==> id in PendingIds(before) && id !in Elements(ids)
    {
      if id in ids {
        var j :| 0 <= j < |ids| && ids[j] == id;
        assert now[ids[j]].status.Sent?;
      }
    }
    assert PendingIds(now) == PendingIds(before) - Elements(ids);
    forall id: int | id in Elements(ids)
      ensures id in PendingIds(before)
    {
      var j :| 0 <= j < |ids| && ids[j] == id;
      assert IsPending(before, ids[j]);
    }
    assert PendingIds(before) == PendingIds(now) + Elements(ids);
  }

  /** One that is down leaves them all pending, if rows cannot be given up. */
  lemma ProcessedStay(before: map<int, OutboxRow>, now: map<int, OutboxRow>, ids: seq<int>, broker: nat -> bool,
      first: nat, w: Writes)
    requires Processed(before, now, ids, broker, first, w) && w.neverGivesUp && forall n :: !broker(n)
    ensures PendingIds(now) == PendingIds(before)
  {
    forall id: int
      ensures id in PendingIds(now) <==> id in PendingIds(before)
    {
      if id in ids {
        var j :| 0 <= j < |ids| && ids[j] == id;
        assert !broker(first + j);
      }
    }
  }

  /** With the broker up, nothing but rows going from PENDING to SENT. */
  lemma ProcessedUp(before: map<int, OutboxRow>, now: map<int, OutboxRow>, ids: seq<int>, broker: nat -> bool,
      first: nat, w: Writes)
    requires AllPending(before, ids) && Processed(before, now, ids, broker, first, w) && forall n :: broker(n)
    ensures OnlySent(before, now)
    ensures w.counts ==> forall j :: 0 <= j < |ids| ==> now[ids[j]].status.Sent?
  {
    forall id: int | id in before
      ensures now[id] == before[id] || (before[id].status.Pending? && now[id] == before[id].(status := Sent))
    {
      if id in ids {
        var j :| 0 <= j < |ids| && ids[j] == id;
        assert IsPending(before, ids[j]) && broker(first + j);
      }
    }
    forall j | 0 <= j < |ids| && w.counts
      ensures now[ids[j]].status.Sent?
    {
      assert IsPending(before, ids[j]) && broker(first + j);
    }
  }

  /** BatchMarkSent. */
  function MarkSent(rows: map<int, OutboxRow>, ids: seq<int>): (r: map<int, OutboxRow>)
    ensures r.Keys == rows.Keys
    ensures forall id :: id in rows ==> r[id] == if id in ids then rows[id].(status := Sent) else rows[id]
  {
    map id | id in rows :: if id in ids then rows[id].(status := Sent) else rows[id]
  }

  lemma {:induction false} MarkSentBacklog(rows: map<int, OutboxRow>, ids: seq<int>)
    requires Distinct(ids) && AllPending(rows, ids)
    ensures Backlog(MarkSent(rows, ids)) + |ids| <= Backlog(rows)
    decreases |ids|
  {
    if ids == [] {
      assert MarkSent(rows, ids) == rows;
    } else {
      var n := |ids| - 1;
      assert ids == ids[..n] + [ids[n]];
      MarkSentBacklog(rows, ids[..n]);
      var before := MarkSent(rows, ids[..n]);
      BacklogUpdate(before, ids[n], before[ids[n]].(status := Sent));
      assert MarkSent(rows, ids) == before[ids[n] := before[ids[n]].(status := Sent)];
    }
  }

  class OutboxWorkerJob {
    /** Whether the n-th send of this job's life succeeds, and whether its n-th row write does: that of
        a retry count or of sent rows, and that of a row given up. */
    const broker: nat -> bool
    const store: nat -> bool
    const giveUp: nat -> bool

    var rows: map<int, OutboxRow>
    var sends: nat
    var writes: nat

    /** Every failed send, by row, and the rows that reached the broker. */
    ghost var failures: multiset<int>
    ghost var delivered: set<int>

    constructor (broker: nat -> bool, store: nat -> bool, giveUp: nat -> bool)
      ensures this.broker == broker && this.store == store && this.giveUp == giveUp
      ensures rows == map[] && delivered == {} && Honest()
    {
      this.broker, this.store, this.giveUp := broker, store, giveUp;
      rows, sends, writes := map[], 0, 0;
      failures, delivered := multiset{}, {};
    }

    ghost predicate WritesSucceed() {
      forall n :: store(n) && giveUp(n)
    }

    ghost predicate CountsSucceed() {
      forall n :: store(n)
    }

    /** MarkFailed never takes effect. */
    ghost predicate NeverGivesUp() {
      forall n :: !giveUp(n)
    }

    ghost predicate BrokerDown() {
      forall n :: !broker(n)
    }

    ghost predicate BrokerUp() {
      forall n :: broker(n)
    }

    /** A row is pending exactly while the broker has not got it. */
    ghost predicate PendingUntilDelivered()
      reads this
    {
      forall id :: id in rows ==> (IsPending(rows, id) <==> id !in delivered)
    }

    /** A row is SENT only if it reached the broker and FAILED only after more than MAX_RETRY sends
        of it failed. */
    ghost predicate Honest()
      reads this
    {
      forall id :: id in rows ==>
        && rows[id].retry <= failures[id]
        && (rows[id].status.Failed? ==> failures[id] >= MAX_RETRY + 1)
        && (rows[id].status.Sent? ==> id in delivered)
    }

    /** Add: a fresh pending row, written with the status change it tells of. */
    method Add(id: int)
      requires id !in rows && Honest()
      modifies this`rows
      ensures rows == old(rows)[id := OutboxRow(Pending, 0)] && Honest()
      ensures old(PendingUntilDelivered()) && id !in delivered ==> PendingUntilDelivered()
    {
      rows := rows[id := OutboxRow(Pending, 0)];
    }

    /** ListPending, in no particular order. */
    method ListPending(offset: nat, limit: nat) returns (ids: seq<int>)
      ensures Distinct(ids) && AllPending(rows, ids)
      ensures |ids| == if |PendingIds(rows)| <= offset then 0
                       else if |PendingIds(rows)| - offset < limit then |PendingIds(rows)| - offset
                       else limit
    {
      ids := [];
      var rest, skipped := PendingIds(rows), 0;
      while rest != {} && |ids| < limit
        invariant |ids| <= limit && 0 <= skipped <= offset && (|ids| > 0 ==> skipped == offset)
        invariant rest <= PendingIds(rows) && |rest| + |ids| + skipped == |PendingIds(rows)|
        invariant Distinct(ids) && AllPending(rows, ids) && forall i :: 0 <= i < |ids| ==> ids[i] !in rest
        decreases rest
      {
        ghost var some := Sums.SomeElement(rest);
        assert some in rest;
        var id :| id in rest;
        rest := rest - {id};
        if skipped < offset {
          skipped := skipped + 1;
        } else {
          ids := ids + [id];
        }
      }
    }

    method IncreaseRetry(id: int) returns (ok: bool, retry: nat)
      requires id in rows
      modifies this`rows, this`writes
      ensures ok == store(old(writes))
      ensures rows == if ok then old(rows)[id := old(rows)[id].(retry := old(rows)[id].retry + 1)] else old(rows)
      ensures ok ==> retry == rows[id].retry
    {
      ok, retry := store(writes), 0;
      writes := writes + 1;
      if ok {
        rows := rows[id := rows[id].(retry := rows[id].retry + 1)];
        retry := rows[id].retry;
      }
    }

    method MarkFailed(id: int) returns (ok: bool)
      requires id in rows
      modifies this`rows, this`writes
      ensures ok == giveUp(old(writes))
      ensures rows == if ok then old(rows)[id := old(rows)[id].(status := Failed)] else old(rows)
    {
      ok := giveUp(writes);
      writes := writes + 1;
      if ok {
        rows := rows[id := rows[id].(status := Failed)];
      }
    }

    ghost function Reliability(): Writes {
      Writes(CountsSucceed(), forall n :: giveUp(n), NeverGivesUp())
    }

    /** One failed send: the branch of processBatch taken for an error. */
    method HandleFailure(id: int)
      requires IsPending(rows, id) && Honest()
      modifies this`rows, this`writes, this`failures
      ensures Honest() && id in rows && rows == old(rows)[id := rows[id]]
      ensures Refused(old(rows)[id], rows[id], Reliability())
      ensures Backlog(rows) <= Backlog(old(rows)) && (WritesSucceed() ==> Backlog(rows) < Backlog(old(rows)))
    {
      ghost var before := rows;
      failures := failures + multiset{id};
      var ok, retry := IncreaseRetry(id);
      if ok && retry > MAX_RETRY {
        var marked := MarkFailed(id);
      }
      assert rows == before[id := rows[id]];
      BacklogUpdate(before, id, rows[id]);
    }

    /** One send of the batch; the broker's answer decides. */
    method Send(id: int) returns (sent: bool)
      requires IsPending(rows, id) && Honest()
      modifies this
      ensures Honest() && id in rows && rows == old(rows)[id := rows[id]]
      ensures sends == old(sends) + 1 && (sent <==> broker(old(sends)))
      ensures delivered == if sent then old(delivered) + {id} else old(delivered)
      ensures if sent then rows == old(rows) else Refused(old(rows)[id], rows[id], Reliability())
      ensures Backlog(rows) <= Backlog(old(rows)) && (!sent && WritesSucceed() ==> Backlog(rows) < Backlog(old(rows)))
    {
      sent := broker(sends);
      sends := sends + 1;
      if sent {
        delivered := delivered + {id};
        assert rows == rows[id := rows[id]];
      } else {
        HandleFailure(id);
      }
    }

    /** One send more of a batch that began at send number `first` with these rows. */
    method SendOne(ids: seq<int>, i: nat, ghost before: map<int, OutboxRow>, ghost first: nat) returns (sent: bool)
      requires Distinct(ids) && AllPending(before, ids) && Honest() && i < |ids| && sends == first + i
      requires Answered(before, rows, ids, i, broker, first, Reliability())
      modifies this
      ensures Honest() && sends == first + i + 1 && (sent <==> broker(first + i))
      ensures Answered(before, rows, ids, i + 1, broker, first, Reliability())
      ensures delivered == if sent then old(delivered) + {ids[i]} else old(delivered)
      ensures Backlog(rows) <= Backlog(old(rows)) && (!sent && WritesSucceed() ==> Backlog(rows) < Backlog(old(rows)))
    {
      assert IsPending(before, ids[i]);
      ghost var earlier := rows;
      sent := Send(ids[i]);
      AnsweredOn(before, earlier, rows, ids, i, broker, first, Reliability());
    }

    /** The sends of processBatch: a row that reached the broker is left for BatchMarkSent. */
    method SendMessages(ids: seq<int>) returns (successIds: seq<int>)
      requires Distinct(ids) && AllPending(rows, ids) && Honest()
      modifies this
      ensures Honest() && sends == old(sends) + |ids|
      ensures Answered(old(rows), rows, ids, |ids|, broker, old(sends), Reliability())
      ensures Arrived(ids, |ids|, broker, old(sends), successIds)
      ensures delivered == old(delivered) + Elements(successIds)
      ensures Backlog(rows) <= Backlog(old(rows))
      ensures WritesSucceed() ==> Backlog(rows) + |ids| - |successIds| <= Backlog(old(rows))
    {
      successIds := [];
      ghost var before, first, w := rows, sends, Reliability();
      for i := 0 to |ids|
        invariant Honest() && sends == first + i
        invariant Answered(before, rows, ids, i, broker, first, w)
        invariant Arrived(ids, i, broker, first, successIds)
        invariant delivered == old(delivered) + Elements(successIds)
        invariant Backlog(rows) <= Backlog(before)
        invariant WritesSucceed() ==> Backlog(rows) + i - |successIds| <= Backlog(before)
      {
        var sent := SendOne(ids, i, before, first);
        successIds := Append(ids, i, sent, first, successIds);
      }
    }

    method Append(ids: seq<int>, i: nat, sent: bool, ghost first: nat, arrived: seq<int>) returns (arrived': seq<int>)
      requires i < |ids| && Distinct(ids) && Arrived(ids, i, broker, first, arrived) && (sent <==> broker(first + i))
      ensures Arrived(ids, i + 1, broker, first, arrived')
      ensures Elements(arrived') == Elements(arrived) + if sent then {ids[i]} else {}
      ensures |arrived'| == |arrived| + if sent then 1 else 0
    {
      ArrivedOn(ids, i, broker, first, arrived);
      arrived' := if sent then arrived + [ids[i]] else arrived;
    }

    /** BatchMarkSent, if there is anything to mark. */
    method MarkAll(ids: seq<int>)
      requires Distinct(ids) && AllPending(rows, ids) && Honest() && Elements(ids) <= delivered
      modifies this`rows, this`writes
      ensures Honest() && (rows == MarkSent(old(rows), ids) || (rows == old(rows) && (ids == [] || !CountsSucceed())))
      ensures Backlog(rows) <= Backlog(old(rows)) && (CountsSucceed() ==> Backlog(rows) + |ids| <= Backlog(old(rows)))
    {
      if |ids| > 0 {
        MarkSentBacklog(rows, ids);
        var ok := store(writes);
        writes := writes + 1;
        if ok {
          rows := MarkSent(rows, ids);
        }
      }
    }

    /** processBatch. Row j of the batch answers to send number `sends + j`: taken by the broker it is
        delivered and, if it can be marked, SENT; refused it counts one failed send more, and the sixth gives
        it up. If the writes work, the backlog falls by at least one for every row of the batch. */
    method ProcessBatch(ids: seq<int>)
      requires Distinct(ids) && AllPending(rows, ids) && Honest()
      modifies this
      ensures Honest() && sends == old(sends) + |ids|
      ensures Processed(old(rows), rows, ids, broker, old(sends), Reliability())
      ensures delivered == old(delivered) + Taken(ids, broker, old(sends))
      ensures Backlog(rows) <= Backlog(old(rows))
      ensures WritesSucceed() ==> Backlog(rows) + |ids| <= Backlog(old(rows))
    {
      var successIds := SendMessages(ids);
      AnsweredPending(old(rows), rows, ids, broker, old(sends), Reliability(), successIds);
      MarkingProcesses(old(rows), rows, ids, broker, old(sends), Reliability(), successIds);
      ArrivedAreTaken(ids, broker, old(sends), successIds);
      MarkAll(successIds);
    }

    /** What Run needs to know of a page. */
    method ProcessPage(ids: seq<int>)
      requires Distinct(ids) && AllPending(rows, ids) && Honest()
      modifies this
      ensures Honest() && NoneReopened(old(rows), rows) && RetriesGrow(old(rows), rows)
      ensures old(delivered) <= delivered && (BrokerDown() ==> delivered == old(delivered))
      ensures Backlog(rows) <= Backlog(old(rows))
      ensures WritesSucceed() ==> Backlog(rows) + |ids| <= Backlog(old(rows))
      ensures CountsSucceed() ==> forall j :: 0 <= j < |ids| ==>
                ids[j] in delivered || rows[ids[j]].retry > old(rows)[ids[j]].retry
      ensures BrokerUp() ==> OnlySent(old(rows), rows) && forall j :: 0 <= j < |ids| ==> ids[j] in delivered
      ensures BrokerUp() && CountsSucceed() ==> forall j :: 0 <= j < |ids| ==> rows[ids[j]].status.Sent?
      ensures sends == old(sends) + |ids|
      ensures BrokerUp() && CountsSucceed() ==> |PendingIds(rows)| == |PendingIds(old(rows))| - |ids|
      ensures BrokerDown() && NeverGivesUp() ==> PendingIds(rows) == PendingIds(old(rows))
      ensures CountsSucceed() && NeverGivesUp() && old(PendingUntilDelivered()) ==> PendingUntilDelivered()
    {
      ProcessBatch(ids);
      ProcessedFacts(old(rows), rows, ids, broker, old(sends), Reliability());
      if BrokerUp() {
        ProcessedUp(old(rows), rows, ids, broker, old(sends), Reliability());
        if CountsSucceed() {
          ProcessedLeave(old(rows), rows, ids);
        }
      }
      if BrokerDown() && NeverGivesUp() {
        ProcessedStay(old(rows), rows, ids, broker, old(sends), Reliability());
      }
      if old(PendingUntilDelivered()) {
        StillUntilDelivered(ids, old(rows), old(delivered), old(sends));
      }
    }

    lemma StillUntilDelivered(ids: seq<int>, before: map<int, OutboxRow>, earlier: set<int>, first: nat)
      requires forall id :: id in before ==> (IsPending(before, id) <==> id !in earlier)
      requires AllPending(before, ids) && Processed(before, rows, ids, broker, first, Reliability())
      requires delivered == earlier + Taken(ids, broker, first)
      ensures CountsSucceed() && NeverGivesUp() ==> PendingUntilDelivered()
    {
    }

    /** Run. Although the offset moves while rows leave the pending set, so that one run can skip
        rows, a run that finds pending rows gets strictly closer to an empty backlog. A small backlog is
        tried row by row. If rows cannot be given up, pending are exactly those not delivered. With the broker
        up at least half of the pending rows are SENT, and all of them if they are no more than one page; with
        the broker down and rows that cannot be given up there is one send for every pending row. */
    method Run()
      requires Honest()
      modifies this
      ensures Honest() && RetriesGrow(old(rows), rows)
      ensures old(delivered) <= delivered && (BrokerDown() ==> delivered == old(delivered))
      ensures Backlog(rows) <= Backlog(old(rows))
      ensures WritesSucceed() && PendingIds(old(rows)) != {} ==> Backlog(rows) < Backlog(old(rows))
      ensures CountsSucceed() && |PendingIds(old(rows))| <= 100 ==>
                AllTried(old(rows), rows, delivered)
      ensures BrokerUp() ==> OnlySent(old(rows), rows)
      ensures BrokerUp() && CountsSucceed() ==> 2 * |PendingIds(rows)| <= |PendingIds(old(rows))|
      ensures BrokerDown() && NeverGivesUp() ==> sends == old(sends) + |PendingIds(old(rows))|
      ensures BrokerUp() && CountsSucceed() && |PendingIds(old(rows))| <= 100 ==>
                forall id :: IsPending(old(rows), id) ==> rows[id].status.Sent? && id in delivered
      ensures CountsSucceed() && NeverGivesUp() && old(PendingUntilDelivered()) ==> PendingUntilDelivered()
    {
      var offset := 0;
      while true
        invariant offset >= 0 && Honest() && NoneReopened(old(rows), rows) && RetriesGrow(old(rows), rows)
        invariant old(delivered) <= delivered && (BrokerDown() ==> delivered == old(delivered))
        invariant Backlog(rows) <= Backlog(old(rows))
        invariant offset == 0 ==> rows == old(rows)
        invariant WritesSucceed() && offset > 0 ==> Backlog(rows) < Backlog(old(rows))
        invariant offset > 0 ==> CountsSucceed() && |PendingIds(old(rows))| <= 100 ==>
                  AllTried(old(rows), rows, delivered)
        invariant BrokerUp() ==> OnlySent(old(rows), rows)
        invariant sends == old(sends) + offset
        invariant BrokerUp() && CountsSucceed() ==> |PendingIds(rows)| == |PendingIds(old(rows))| - offset
        invariant BrokerDown() && NeverGivesUp() ==>
                  PendingIds(rows) == PendingIds(old(rows)) && offset <= |PendingIds(rows)|
        invariant offset > 0 ==> BrokerUp() && CountsSucceed() && |PendingIds(old(rows))| <= 100 ==>
                    forall id :: IsPending(old(rows), id) ==> rows[id].status.Sent? && id in delivered
        invariant CountsSucceed() && NeverGivesUp() && old(PendingUntilDelivered()) ==> PendingUntilDelivered()
        decreases |PendingIds(old(rows))| - offset
      {
        var ids := ListPending(offset, BATCH_SIZE);
        if |ids| == 0 {
          NonePending(rows);
          break;
        }
        PendingShrinks(old(rows), rows);
        ProcessPage(ids);
        if offset == 0 && |PendingIds(old(rows))| <= BATCH_SIZE {
          ListedAll(old(rows), ids);
        }
        if |ids| < BATCH_SIZE {
          break;
        }
        offset := offset + BATCH_SIZE;
      }
    }

    /** The schedule calls Run again and again. As many runs as the backlog weighs clear it, if every
        write works. If rows cannot be given up, exactly the rows that were never delivered stay pending,
        however often it runs. */
    method RunTimes(n: nat)
      requires Honest()
      modifies this
      ensures Honest() && rows.Keys == old(rows).Keys && old(delivered) <= delivered
      ensures WritesSucceed() && n >= Backlog(old(rows)) ==> PendingIds(rows) == {}
      ensures BrokerUp() ==> OnlySent(old(rows), rows)
      ensures CountsSucceed() && NeverGivesUp() && old(PendingUntilDelivered()) ==>
                forall id :: id in rows ==> (IsPending(rows, id) <==> id !in delivered)
    {
      for i := 0 to n
        invariant Honest() && rows.Keys == old(rows).Keys && old(delivered) <= delivered
        invariant BrokerUp() ==> OnlySent(old(rows), rows)
        invariant WritesSucceed() ==> Backlog(rows) + i <= Backlog(old(rows)) || PendingIds(rows) == {}
        invariant CountsSucceed() && NeverGivesUp() && old(PendingUntilDelivered()) ==> PendingUntilDelivered()
      {
        BacklogZero(rows);
        Run();
        BacklogZero(rows);
      }
      BacklogZero(rows);
    }
  }

  lemma NonePending(rows: map<int, OutboxRow>)
    ensures |PendingIds(rows)| == 0 ==> forall id :: !IsPending(rows, id)
  {
    forall id | IsPending(rows, id)
      ensures |PendingIds(rows)| > 0
    {
      assert id in PendingIds(rows);
    }
  }

  /** A list of as many distinct pending rows as there are holds them all. */
  lemma ListedAll(rows: map<int, OutboxRow>, ids: seq<int>)
    requires Distinct(ids) && AllPending(rows, ids) && |ids| == |PendingIds(rows)|
    ensures forall id :: IsPending(rows, id) ==> id in ids
  {
    DistinctSize(ids);
    forall id | id in Elements(ids)
      ensures id in PendingIds(rows)
    {
      var i :| 0 <= i < |ids| && ids[i] == id;
      assert IsPending(rows, ids[i]);
    }
    SubsetSize(Elements(ids), PendingIds(rows));
    forall id | IsPending(rows, id)
      ensures id in ids
    {
      assert id in PendingIds(rows);
      assert id in Elements(ids);
    }
  }

  /** One row that the broker refuses, and a MarkFailed that never takes effect: after any number of runs,
      and at least as many failed sends, the row is still pending. */
  method RefusedRowStaysPending(n: nat) returns (job: OutboxWorkerJob)
    ensures job.rows.Keys == {1} && IsPending(job.rows, 1) && job.rows[1].retry >= n
  {
    job := new OutboxWorkerJob(_ => false, _ => true, _ => false);
    job.Add(1);
    for i := 0 to n
      invariant job.Honest() && job.PendingUntilDelivered() && job.delivered == {}
      invariant job.rows.Keys == {1} && job.rows[1].retry >= i
      invariant job.BrokerDown() && job.CountsSucceed() && job.NeverGivesUp()
    {
      assert PendingIds(job.rows) <= {1};
      SubsetSize(PendingIds(job.rows), {1});
      assert IsPending(job.rows, 1);
      job.Run();
    }
  }
}
