/**
  Orders: the status graph (backend/internal/order/domain/order.go), the events built from it
  (event.go), and the two transactions that change a status together with its outbox row
  (usecase/change_orderStatus.go, usecase/batch_cancel_order.go).
 */
module Orders {
  import opened Collections

  datatype Status = Unknown | Created | Paid | Shipped | Completed | Canceled | Refunded
  datatype Action = NoAction | Pay | Ship | Complete | Cancel | Refund

  /** What an Order method answers: nil, ErrOrderStatusUnchanged or ErrInvalidStatusTransition. */
  datatype Answer = Ok | Unchanged | Invalid

  /** The status an action leads to. */
  function Target(a: Action): Status {
    match a
    case NoAction => Unknown
    case Pay => Paid
    case Ship => Shipped
    case Complete => Completed
    case Cancel => Canceled
    case Refund => Refunded
  }

  /** The transition graph of an order. */
  predicate Edge(from: Status, to: Status) {
    match from
    case Created => to == Paid || to == Canceled
    case Paid => to == Shipped || to == Refunded
    case Shipped => to == Completed || to == Refunded
    case _ => false
  }

  /** applyOrderAction as a function of status and action. */
  function Judge(s: Status, a: Action): Answer {
    if a == NoAction then Invalid
    else if s == Target(a) then Unchanged
    else if Edge(s, Target(a)) then Ok
    else Invalid
  }

  datatype Item = Item(productId: int, skuId: int)
  datatype Event = Event(orderId: int, userId: int, status: Status, orderKind: string, productIds: seq<int>,
      skuIds: seq<int>)

  const CART := "CART"

  class Order {
    const id: int
    const userId: int
    const orderKind: string
    const items: seq<Item>
    var status: Status

    constructor (id: int, userId: int, orderKind: string, items: seq<Item>, status: Status)
      ensures this.id == id && this.userId == userId && this.orderKind == orderKind && this.items == items &&
              this.status == status
    {
      this.id, this.userId, this.orderKind, this.items, this.status := id, userId, orderKind, items, status;
    }

    method DoPay() returns (r: Answer)
      modifies this
      ensures r == Judge(old(status), Pay) && status == if r.Ok? then Paid else old(status)
    {
      if status == Paid { return Unchanged; }
      if status != Created { return Invalid; }
      status := Paid;
      return Ok;
    }

    method DoShip() returns (r: Answer)
      modifies this
      ensures r == Judge(old(status), Ship) && status == if r.Ok? then Shipped else old(status)
    {
      if status == Shipped { return Unchanged; }
      if status != Paid { return Invalid; }
      status := Shipped;
      return Ok;
    }

    method DoComplete() returns (r: Answer)
      modifies this
      ensures r == Judge(old(status), Complete) && status == if r.Ok? then Completed else old(status)
    {
      if status == Completed { return Unchanged; }
      if status != Shipped { return Invalid; }
      status := Completed;
      return Ok;
    }

    method DoCancel() returns (r: Answer)
      modifies this
      ensures r == Judge(old(status), Cancel) && status == if r.Ok? then Canceled else old(status)
    {
      if status == Canceled { return Unchanged; }
      if status != Created { return Invalid; }
      status := Canceled;
      return Ok;
    }

    method DoRefund() returns (r: Answer)
      modifies this
      ensures r == Judge(old(status), Refund) && status == if r.Ok? then Refunded else old(status)
    {
      if status == Refunded { return Unchanged; }
      if status != Paid && status != Shipped { return Invalid; }
      status := Refunded;
      return Ok;
    }

    /** applyOrderAction: the five methods together are exactly the edges of the graph. */
    method ApplyAction(a: Action) returns (r: Answer)
      modifies this
      ensures r == Judge(old(status), a)
      ensures r.Ok? <==> Edge(old(status), Target(a))
      ensures status == if r.Ok? then Target(a) else old(status)
      ensures a.Pay? && old(status).Created? ==> r.Ok? && status == Paid
      ensures a.Cancel? && old(status).Created? ==> r.Ok? && status == Canceled
      ensures a.Ship? && old(status).Paid? ==> r.Ok? && status == Shipped
      ensures a.Complete? && old(status).Shipped? ==> r.Ok? && status == Completed
      ensures a.Refund? && (old(status).Paid? || old(status).Shipped?) ==> r.Ok? && status == Refunded
      ensures r.Ok? ==>
                || ((a.Pay? || a.Cancel?) && old(status).Created?)
                || (a.Ship? && old(status).Paid?) || (a.Complete? && old(status).Shipped?)
                || (a.Refund? && (old(status).Paid? || old(status).Shipped?))
    {
      match a
      case Pay => r := DoPay();
      case Ship => r := DoShip();
      case Complete => r := DoComplete();
      case Cancel => r := DoCancel();
      case Refund => r := DoRefund();
      case NoAction => r := Invalid;
    }

    /** BuildOrderStatusUpdateEvent: only a paid cart order tells its user and products. */
    method BuildEvent() returns (e: Event)
      ensures e.orderId == id && e.status == status && e.orderKind == orderKind
      ensures |e.productIds| == |e.skuIds| == if status == Paid && orderKind == CART then |items| else 0
      ensures e.userId == if status == Paid && orderKind == CART then userId else 0
      ensures forall i :: 0 <= i < |e.productIds| ==>
              e.productIds[i] == items[i].productId && e.skuIds[i] == items[i].skuId
    {
      e := Event(id, 0, status, orderKind, [], []);
      if status != Paid || orderKind != CART {
        return;
      }
      e := e.(userId := userId);
      for i := 0 to |items|
        invariant e == Event(id, userId, status, orderKind, e.productIds, e.skuIds)
        invariant |e.productIds| == |e.skuIds| == i
        invariant forall j :: 0 <= j < i ==> e.productIds[j] == items[j].productId && e.skuIds[j] == items[j].skuId
      {
        e := e.(productIds := e.productIds + [items[i].productId], skuIds := e.skuIds + [items[i].skuId]);
      }
    }
  }

  // ---------------------------------------------------------------- the graph

  /** A path of the graph from Created. */
  predicate Path(p: seq<Status>) {
    p != [] && p[0] == Created && forall i :: 0 < i < |p| ==> Edge(p[i - 1], p[i])
  }

  function Depth(s: Status): int {
    match s
    case Created => 0
    case Paid => 1
    case Canceled => 1
    case Shipped => 2
    case Refunded => 3
    case Completed => 3
    case Unknown => 4
  }

  lemma {:induction false} PathDepth(p: seq<Status>, i: nat)
    requires Path(p) && i < |p|
    ensures i <= Depth(p[i]) <= 3
    ensures forall j :: i < j < |p| ==> Depth(p[i]) < Depth(p[j])
    decreases |p| - i
  {
    if i + 1 < |p| {
      PathDepth(p, i + 1);
      assert Edge(p[i], p[i + 1]);
    }
    PathClimbs(p, i);
  }

  lemma {:induction false} PathClimbs(p: seq<Status>, i: nat)
    requires Path(p) && i < |p|
    ensures i <= Depth(p[i]) <= 3
    decreases i
  {
    if i > 0 {
      PathClimbs(p, i - 1);
      assert Edge(p[i - 1], p[i]);
    }
  }

  /** An order changes status at most three times, never twice to the same status, and is never
      both paid and canceled. */
  lemma PathFacts(p: seq<Status>)
    requires Path(p)
    ensures |p| <= 4
    ensures forall i, j :: 0 <= i < j < |p| ==> p[i] != p[j]
    ensures !(Paid in p && Canceled in p)
  {
    PathDepth(p, |p| - 1);
    forall i, j | 0 <= i < j < |p|
      ensures p[i] != p[j] && !(p[i] == Paid && p[j] == Canceled) && !(p[i] == Canceled && p[j] == Paid)
    {
      PathDepth(p, i);
    }
  }

  // ---------------------------------------------------------------- the two transactions

  datatype Row = Row(orderId: int, status: Status)
  datatype Db = Db(status: map<int, Status>, outbox: seq<Row>)

  /** UpdateStatus and outbox Add in one transaction; `addOk` is whether the insert works. */
  function ChangeTx(db: Db, id: int, from: Status, to: Status, addOk: bool): (Db, bool) {
    if id in db.status && db.status[id] == from && addOk then
      (Db(db.status[id := to], db.outbox + [Row(id, to)]), true)
    else (db, false)
  }

  /** The rows BatchUpdateStatus touches. */
  function Affected(db: Db, ids: seq<int>): set<int> {
    set id | id in ids && id in db.status && db.status[id] == Created
  }

  function CancelRows(ids: seq<int>): seq<Row> {
    seq(|ids|, i requires 0 <= i < |ids| => Row(ids[i], Canceled))
  }

  function CancelAll(status: map<int, Status>, ids: seq<int>): map<int, Status> {
    map id | id in status :: if id in ids then Canceled else status[id]
  }

  /** BatchUpdateStatus (which fails unless it touched as many rows as ids) and BatchAdd. */
  function BatchTx(db: Db, ids: seq<int>, addOk: bool): (Db, bool) {
    if |Affected(db, ids)| == |ids| && addOk then
      (Db(CancelAll(db.status, ids), db.outbox + CancelRows(ids)), true)
    else (db, false)
  }

  /** The row count decides as intended: the batch goes through exactly when its ids are distinct
      and every one of them is still CREATED. One paid order makes the whole batch fail. */
  lemma BatchCommitsIff(db: Db, ids: seq<int>)
    ensures BatchTx(db, ids, true).1 <==>
              Distinct(ids) && forall id :: id in ids ==> id in db.status && db.status[id] == Created
  {
    DistinctSize(ids);
    assert Affected(db, ids) <= Elements(ids);
    SubsetSize(Affected(db, ids), Elements(ids));
    if BatchTx(db, ids, true).1 {
      assert Affected(db, ids) == Elements(ids);
      forall id | id in ids
        ensures id in db.status && db.status[id] == Created
      {
        assert id in Elements(ids);
      }
    }
    if Distinct(ids) && forall id :: id in ids ==> id in db.status && db.status[id] == Created {
      assert Affected(db, ids) == Elements(ids);
    }
  }

  /** The body of BatchCancelOrderUseCase.Execute: keep the orders read as CREATED, build their
      rows, then the conditional update. `seen` are the statuses FindByIDs returned. */
  method BatchCancel(db: Db, ids: seq<int>, seen: seq<Status>, addOk: bool)
      returns (db': Db, ok: bool, canceled: seq<int>)
    requires |ids| == |seen|
    ensures canceled == SeenCreated(ids, seen)
    ensures forall id :: id in canceled <==> exists i :: 0 <= i < |ids| && ids[i] == id && seen[i] == Created
    ensures ok <==>
              canceled == [] ||
              (addOk && Distinct(canceled) && forall id :: id in canceled ==>
                id in db.status && db.status[id] == Created)
    ensures !ok ==> db' == db
    ensures ok ==> db'.status.Keys == db.status.Keys && forall id :: id in db.status ==>
                     db'.status[id] == if id in canceled then Canceled else db.status[id]
    ensures ok ==> |db'.outbox| == |db.outbox| + |canceled| && db.outbox <= db'.outbox
    ensures ok ==> forall i :: 0 <= i < |canceled| ==> db'.outbox[|db.outbox| + i] == Row(canceled[i], Canceled)
    ensures db' == Do(db, CancelBatch(ids, seen, addOk))
  {
    canceled := [];
    var rows: seq<Row> := [];
    for i := 0 to |ids|
      invariant canceled == SeenCreated(ids[..i], seen[..i]) && rows == CancelRows(canceled)
    {
      assert ids[..i + 1][..i] == ids[..i] && seen[..i + 1][..i] == seen[..i];
      if seen[i] == Created {
        canceled := canceled + [ids[i]];
        rows := rows + [Row(ids[i], Canceled)];
      }
    }
    assert ids[..|ids|] == ids && seen[..|ids|] == seen;
    SeenCreatedAre(ids, seen);
    if |canceled| == 0 {
      return db, true, canceled;
    }
    BatchCommitsIff(db, canceled);
    var touched := Affected(db, canceled);
    if |touched| != |canceled| || !addOk {
      return db, false, canceled;
    }
    db' := Db(CancelAll(db.status, canceled), db.outbox + rows);
    ok := true;
  }

  /** The orders BatchCancelOrderUseCase.Execute tries to cancel: those it read as CREATED. */
  function SeenCreated(ids: seq<int>, seen: seq<Status>): seq<int>
    requires |ids| == |seen|
  {
    if ids == [] then []
    else
      var n := |ids| - 1;
      SeenCreated(ids[..n], seen[..n]) + if seen[n] == Created then [ids[n]] else []
  }

  /** They are the ids that were read as CREATED; one read as anything else is left out and cannot sink
      the batch. */
  lemma {:induction false} SeenCreatedAre(ids: seq<int>, seen: seq<Status>)
    requires |ids| == |seen|
    ensures forall id :: id in SeenCreated(ids, seen) <==>
            exists i :: 0 <= i < |ids| && ids[i] == id && seen[i] == Created
    decreases |ids|
  {
    if ids == [] {
    } else {
      var n := |ids| - 1;
      SeenCreatedAre(ids[..n], seen[..n]);
      forall id
        ensures id in SeenCreated(ids, seen) <==> exists i :: 0 <= i < |ids| && ids[i] == id && seen[i] == Created
      {
        if i :| 0 <= i < n && ids[i] == id && seen[i] == Created {
          assert ids[..n][i] == id && seen[..n][i] == Created;
        }
        if i :| 0 <= i < n && ids[..n][i] == id && seen[..n][i] == Created {
          assert ids[i] == id && seen[i] == Created;
        }
      }
    }
  }

  /** Reading distinct ids never makes the batch fail by itself. */
  lemma {:induction false} SeenCreatedDistinct(ids: seq<int>, seen: seq<Status>)
    requires |ids| == |seen| && Distinct(ids)
    ensures Distinct(SeenCreated(ids, seen))
    decreases |ids|
  {
    if ids == [] {
    } else {
      var n := |ids| - 1;
      SeenCreatedAre(ids[..n], seen[..n]);
      SeenCreatedDistinct(ids[..n], seen[..n]);
      forall id | id in SeenCreated(ids[..n], seen[..n])
        ensures id != ids[n]
      {
        var i :| 0 <= i < n && ids[..n][i] == id && seen[..n][i] == Created;
        assert ids[i] != ids[n];
      }
      DistinctConcat(SeenCreated(ids[..n], seen[..n]), [ids[n]]);
    }
  }

  /** How ChangeOrderStatusUseCase.Execute ends: changed or not, ErrInvalidStatusTransition, another error. */
  datatype Outcome = Changed | NotChanged | InvalidTransition | Failed

  /** The body of ChangeOrderStatusUseCase.Execute. `seen` is the status FindByID returned, read
      outside the transaction, so by now it may be any earlier status of the order. */
  method ChangeStatus(db: Db, id: int, a: Action, seen: Status, addOk: bool) returns (db': Db, r: Outcome)
    ensures r.Changed? <==> Edge(seen, Target(a)) && id in db.status && db.status[id] == seen && addOk
    ensures r.Changed? ==>
              db'.status == db.status[id := Target(a)] && db'.outbox == db.outbox + [Row(id, Target(a))]
    ensures !r.Changed? ==> db' == db
    ensures r.NotChanged? <==> a != NoAction && seen == Target(a)
    ensures r.InvalidTransition? <==>
              a != NoAction && seen != Target(a) &&
                (Edge(seen, Target(a)) ==> id !in db.status || db.status[id] != seen)
    ensures db' == Do(db, Change(id, a, seen, addOk))
  {
    db', r := db, Failed;
    if a == NoAction { return; }
    var order := new Order(id, 0, CART, [], seen);
    var answer := order.ApplyAction(a);
    if answer.Unchanged? { r := NotChanged; return; }
    if answer.Invalid? { r := InvalidTransition; return; }
    if id !in db.status || db.status[id] != seen { r := InvalidTransition; return; }
    if !addOk { return; }
    db' := Db(db.status[id := order.status], db.outbox + [Row(id, order.status)]);
    r := Changed;
  }

  // ---------------------------------------------------------------- every run

  /** What can happen to the order tables, one committed transaction at a time. The statuses that
      the two use cases decide on were read earlier and may be stale in any way. */
  datatype Op =
    | Create(id: int)
    | Change(id: int, action: Action, seen: Status, addOk: bool)
    | CancelBatch(ids: seq<int>, seenAll: seq<Status>, addOk: bool)

  predicate WellFormed(op: Op) {
    op.CancelBatch? ==> |op.ids| == |op.seenAll|
  }

  function Do(db: Db, op: Op): Db
    requires WellFormed(op)
  {
    match op
    case Create(id) => if id in db.status then db else db.(status := db.status[id := Created])
    case Change(id, a, seen, addOk) => if Edge(seen, Target(a)) then ChangeTx(db, id, seen, Target(a), addOk).0 else db
    case CancelBatch(ids, seenAll, addOk) =>
      var canceled := SeenCreated(ids, seenAll);
      if canceled == [] then db else BatchTx(db, canceled, addOk).0
  }

  predicate IsRun(ops: seq<Op>) {
    forall i :: 0 <= i < |ops| ==> WellFormed(ops[i])
  }

  function After(ops: seq<Op>): Db
    requires IsRun(ops)
  {
    if ops == [] then Db(map[], []) else Do(After(ops[..|ops| - 1]), ops[|ops| - 1])
  }

  /** What an observer of the orders table alone sees of one order: each status it takes, in turn. */
  function History(ops: seq<Op>, id: int): seq<Status>
    requires IsRun(ops)
  {
    if ops == [] then []
    else
      var before, now := After(ops[..|ops| - 1]).status, After(ops).status;
      var past := History(ops[..|ops| - 1], id);
      if id in now && (id !in before || before[id] != now[id]) then past + [now[id]] else past
  }

  /** What a consumer of the outbox sees of one order. */
  function RowsOf(rows: seq<Row>, id: int): seq<Status> {
    if rows == [] then []
    else
      var last := rows[|rows| - 1];
      RowsOf(rows[..|rows| - 1], id) + if last.orderId == id then [last.status] else []
  }

  lemma {:induction false} RowsOfAppend(x: seq<Row>, y: seq<Row>, id: int)
    ensures RowsOf(x + y, id) == RowsOf(x, id) + RowsOf(y, id)
    decreases |y|
  {
    if y == [] {
      assert x + y == x;
    } else {
      var n := |y| - 1;
      RowsOfAppend(x, y[..n], id);
      assert (x + y)[..|x + y| - 1] == x + y[..n];
    }
  }

  lemma {:induction false} CancelRowsOf(ids: seq<int>, id: int)
    requires Distinct(ids)
    ensures RowsOf(CancelRows(ids), id) == if id in ids then [Canceled] else []
    decreases |ids|
  {
    if ids == [] {
    } else {
      var n := |ids| - 1;
      CancelRowsOf(ids[..n], id);
      assert CancelRows(ids)[..n] == CancelRows(ids[..n]);
      assert ids == ids[..n] + [ids[n]];
    }
  }

  /** One order in one database: its history so far is a path ending in its status, and its outbox
      rows are that path without the start. */
  predicate Told(db: Db, id: int, history: seq<Status>) {
    if id in db.status then
      && Path(history)
      && history[|history| - 1] == db.status[id]
      && RowsOf(db.outbox, id) == history[1..]
    else history == [] && RowsOf(db.outbox, id) == []
  }

  function Extend(db: Db, db': Db, id: int, history: seq<Status>): seq<Status> {
    if id in db'.status && (id !in db.status || db.status[id] != db'.status[id]) then history + [db'.status[id]]
    else history
  }

  lemma MovedTold(db: Db, db': Db, who: int, history: seq<Status>, to: Status)
    requires Told(db, who, history) && who in db.status && Edge(db.status[who], to)
    requires who in db'.status && db'.status[who] == to && RowsOf(db'.outbox, who) == RowsOf(db.outbox, who) + [to]
    ensures Told(db', who, Extend(db, db', who, history))
  {
    assert (history + [to])[1..] == history[1..] + [to];
  }

  lemma ChangeTold(db: Db, id: int, from: Status, to: Status, addOk: bool, who: int, history: seq<Status>)
    requires Told(db, who, history) && Edge(from, to)
    ensures var db' := ChangeTx(db, id, from, to, addOk).0; Told(db', who, Extend(db, db', who, history))
  {
    var (db', done) := ChangeTx(db, id, from, to, addOk);
    if done {
      RowsOfAppend(db.outbox, [Row(id, to)], who);
      assert RowsOf([Row(id, to)], who) == if id == who then [to] else [] by {
        assert [Row(id, to)][..0] == [];
      }
      if who == id {
        MovedTold(db, db', who, history, to);
      }
    }
  }

  lemma BatchRows(db: Db, ids: seq<int>, who: int)
    requires BatchTx(db, ids, true).1
    ensures RowsOf(db.outbox + CancelRows(ids), who) == RowsOf(db.outbox, who) + if who in ids then [Canceled] else []
    ensures who in ids ==> who in db.status && db.status[who] == Created
  {
    BatchCommitsIff(db, ids);
    RowsOfAppend(db.outbox, CancelRows(ids), who);
    CancelRowsOf(ids, who);
  }

  lemma BatchTold(db: Db, ids: seq<int>, addOk: bool, who: int, history: seq<Status>)
    requires Told(db, who, history)
    ensures var db' := BatchTx(db, ids, addOk).0; Told(db', who, Extend(db, db', who, history))
  {
    var (db', done) := BatchTx(db, ids, addOk);
    if done {
      BatchRows(db, ids, who);
      if who in ids {
        MovedTold(db, db', who, history, Canceled);
      }
    }
  }

  lemma StepTold(db: Db, op: Op, who: int, history: seq<Status>)
    requires WellFormed(op) && Told(db, who, history)
    ensures Told(Do(db, op), who, Extend(db, Do(db, op), who, history))
  {
    match op
    case Create(_) =>
    case Change(id, a, seen, addOk) =>
      if Edge(seen, Target(a)) {
        ChangeTold(db, id, seen, Target(a), addOk, who, history);
      }
    case CancelBatch(ids, seenAll, addOk) => BatchTold(db, SeenCreated(ids, seenAll), addOk, who, history);
  }

  lemma {:induction false} EveryRunTold(ops: seq<Op>, who: int)
    requires IsRun(ops)
    ensures Told(After(ops), who, History(ops, who))
    decreases |ops|
  {
    if ops == [] {
    } else {
      var past := ops[..|ops| - 1];
      EveryRunTold(past, who);
      StepTold(After(past), ops[|ops| - 1], who, History(past, who));
    }
  }

  /** Order history: in every run the outbox rows of an order are exactly the changes of its status,
      in order. They follow the transition graph from Created, are at most three, never repeat, and
      never hold both PAID and CANCELED, however stale the statuses read before each update were. */
  lemma {:induction false} OutboxIsHistory(ops: seq<Op>, id: int)
    requires IsRun(ops)
    ensures id in After(ops).status ==>
              && Path(History(ops, id))
              && RowsOf(After(ops).outbox, id) == History(ops, id)[1..]
              && History(ops, id)[|History(ops, id)| - 1] == After(ops).status[id]
    ensures id !in After(ops).status ==> RowsOf(After(ops).outbox, id) == []
    ensures var rows := RowsOf(After(ops).outbox, id);
            && |rows| <= 3
            && (forall i, j :: 0 <= i < j < |rows| ==> rows[i] != rows[j])
            && !(Paid in rows && Canceled in rows)
  {
    EveryRunTold(ops, id);
    if id in After(ops).status {
      PathFacts(History(ops, id));
    }
  }

  /** Time goes one way: orders stay, and none becomes CREATED again. */
  ghost predicate Advances(db: Db, db': Db) {
    forall id :: id in db.status ==> id in db'.status && (db.status[id] != Created ==> db'.status[id] != Created)
  }

  lemma DoAdvances(db: Db, op: Op)
    requires WellFormed(op)
    ensures Advances(db, Do(db, op))
  {
  }

  /** An order that is canceled was never paid, and never will be told to have been. */
  lemma {:induction false} CanceledNeverPaid(ops: seq<Op>, id: int)
    requires IsRun(ops) && id in After(ops).status && After(ops).status[id] == Canceled
    ensures Canceled in RowsOf(After(ops).outbox, id) && Paid !in RowsOf(After(ops).outbox, id)
  {
    OutboxIsHistory(ops, id);
    var history := History(ops, id);
    assert history[1..][|history| - 2] == Canceled;
  }

  lemma OneMore(ops: seq<Op>, op: Op, id: int)
    requires IsRun(ops) && WellFormed(op)
    ensures IsRun(ops + [op]) && After(ops + [op]) == Do(After(ops), op)
    ensures History(ops + [op], id) == Extend(After(ops), After(ops + [op]), id, History(ops, id))
  {
    assert (ops + [op])[..|ops|] == ops;
  }

  /** An order that is new is CREATED, without a row; one that exists already stays as it is. */
  lemma CreateStarts(ops: seq<Op>, id: int)
    requires IsRun(ops)
    ensures IsRun(ops + [Create(id)]) && id in After(ops + [Create(id)]).status
    ensures var before, now := After(ops), After(ops + [Create(id)]);
            now.outbox == before.outbox
            && now.status == if id in before.status then before.status else before.status[id := Created]
  {
    OneMore(ops, Create(id), id);
  }

  lemma RowAdded(rows: seq<Row>, id: int, s: Status)
    ensures RowsOf(rows + [Row(id, s)], id) == RowsOf(rows, id) + [s]
  {
    assert (rows + [Row(id, s)])[..|rows|] == rows;
  }

  lemma Begun(id: int) returns (ops: seq<Op>)
    ensures IsRun(ops) && After(ops) == Db(map[id := Created], []) && History(ops, id) == [Created]
  {
    OneMore([], Create(id), id);
    CreateStarts([], id);
    ops := [] + [Create(id)];
  }

  /** An undisturbed order goes through all its statuses and tells of each. */
  lemma FullLife(id: int) returns (ops: seq<Op>)
    ensures IsRun(ops) && History(ops, id) == [Created, Paid, Shipped, Completed]
    ensures RowsOf(After(ops).outbox, id) == [Paid, Shipped, Completed]
  {
    ops := LifeUpToShipped(id);
    ops := Onward(ops, id, Complete);
  }

  lemma LifeUpToShipped(id: int) returns (ops: seq<Op>)
    ensures IsRun(ops) && id in After(ops).status && After(ops).status[id] == Shipped
    ensures History(ops, id) == [Created, Paid, Shipped] && RowsOf(After(ops).outbox, id) == [Paid, Shipped]
  {
    ops := LifeUpToPaid(id);
    ops := Onward(ops, id, Ship);
  }

  lemma LifeUpToPaid(id: int) returns (ops: seq<Op>)
    ensures IsRun(ops) && id in After(ops).status && After(ops).status[id] == Paid
    ensures History(ops, id) == [Created, Paid] && RowsOf(After(ops).outbox, id) == [Paid]
  {
    ops := Begun(id);
    ops := Onward(ops, id, Pay);
  }

  lemma Onward(ops: seq<Op>, id: int, a: Action) returns (more: seq<Op>)
    requires IsRun(ops) && id in After(ops).status && Edge(After(ops).status[id], Target(a))
    ensures IsRun(more) && id in After(more).status && After(more).status[id] == Target(a)
    ensures History(more, id) == History(ops, id) + [Target(a)]
    ensures RowsOf(After(more).outbox, id) == RowsOf(After(ops).outbox, id) + [Target(a)]
  {
    var op := Change(id, a, After(ops).status[id], true);
    OneMore(ops, op, id);
    RowAdded(After(ops).outbox, id, Target(a));
    more := ops + [op];
  }
}
