/**
  Payments: the status machine (backend/internal/payment/domain/payment.go), the row update under a
  row lock (infra/repository/gorm.go) and the callback that writes an outbox row with every status
  change (usecase/wechat_callback_uc.go).
 */
module Payments {
  import opened Options

  datatype Status = Unknown | Init | Success | Failed | Refund

  /** `txn` is empty while the provider has not named a transaction. */
  datatype Payment = Payment(status: Status, txn: string)
  datatype Transition = Transition(payment: Payment, statusChanged: bool, shouldPersist: bool)

  /** nextPaymentStatus. */
  function Next(current: Status, incoming: Status): (Status, bool) {
    match current
    case Success => if incoming == Refund then (Refund, true) else (current, false)
    case Refund => (current, false)
    case Failed => if incoming == Success then (Success, true) else (current, false)
    case _ => (incoming, true)
  }

  /** ApplyProviderResult. */
  function Apply(p: Payment, incoming: Payment): Transition {
    var txn := if incoming.txn != "" && p.txn == "" then incoming.txn else p.txn;
    if incoming.status == Unknown || incoming.status == Init then
      Transition(Payment(p.status, txn), false, txn != p.txn)
    else
      var (status, changed) := Next(p.status, incoming.status);
      Transition(Payment(status, txn), changed, changed || txn != p.txn)
  }

  // ---------------------------------------------------------------- one payment, any results

  function Rank(s: Status): nat {
    match s
    case Unknown => 0
    case Init => 0
    case Failed => 1
    case Success => 2
    case Refund => 3
  }

  /** A status change always raises the rank, a transaction id once set stays, and a result that has
      been applied changes nothing when it comes again. */
  lemma ApplyClimbs(p: Payment, r: Payment)
    ensures var t := Apply(p, r);
            && (t.statusChanged <==> Rank(t.payment.status) > Rank(p.status))
            && (t.statusChanged <==> t.payment.status != p.status)
            && (t.shouldPersist <==> t.payment != p)
            && (p.txn != "" ==> t.payment.txn == p.txn)
            && Apply(t.payment, r) == Transition(t.payment, false, false)
  {
  }

  /** The payment after a sequence of results. */
  function Final(p: Payment, results: seq<Payment>): Payment
    decreases |results|
  {
    if results == [] then p else Final(Apply(p, results[0]).payment, results[1..])
  }

  function Statuses(results: seq<Payment>): set<Status> {
    set r | r in results :: r.status
  }

  predicate Open(s: Status) {
    s == Unknown || s == Init
  }

  /** The two results that do not commute, seen from each status. */
  predicate Conflict(s: Status, results: set<Status>) {
    || (Open(s) && Failed in results && Refund in results)
    || (s == Failed && Success in results && Refund in results)
  }

  /** Where the results lead when no two of them conflict. */
  function Outcome(s: Status, results: set<Status>): Status {
    match s
    case Refund => Refund
    case Success => if Refund in results then Refund else Success
    case Failed => if Success in results then Success else Failed
    case _ =>
      if Refund in results then Refund
      else if Success in results then Success
      else if Failed in results then Failed
      else s
  }

  lemma OutcomeStep(p: Payment, r: Payment, rest: set<Status>)
    requires !Conflict(p.status, {r.status} + rest)
    ensures !Conflict(Apply(p, r).payment.status, rest)
    ensures Outcome(Apply(p, r).payment.status, rest) == Outcome(p.status, {r.status} + rest)
  {
  }

  lemma {:induction false} FinalOutcome(p: Payment, results: seq<Payment>)
    requires !Conflict(p.status, Statuses(results))
    ensures Final(p, results).status == Outcome(p.status, Statuses(results))
    decreases |results|
  {
    if results == [] {
    } else {
      StatusesCons(results);
      OutcomeStep(p, results[0], Statuses(results[1..]));
      FinalOutcome(Apply(p, results[0]).payment, results[1..]);
    }
  }

  lemma StatusesCons(results: seq<Payment>)
    requires results != []
    ensures Statuses(results) == {results[0].status} + Statuses(results[1..])
  {
    assert results == [results[0]] + results[1..];
    assert forall r :: r in results <==> r == results[0] || r in results[1..];
  }

  // ---------------------------------------------------------------- convergence

  /** The results of one status, in order, and the others. */
  function Only(results: seq<Payment>, s: Status): seq<Payment> {
    if results == [] then [] else (if results[0].status == s then [results[0]] else []) + Only(results[1..], s)
  }

  function Except(results: seq<Payment>, s: Status): seq<Payment> {
    if results == [] then [] else (if results[0].status == s then [] else [results[0]]) + Except(results[1..], s)
  }

  lemma {:induction false} SplitMembers(results: seq<Payment>, s: Status)
    ensures forall r :: r in Only(results, s) <==> r in results && r.status == s
    ensures forall r :: r in Except(results, s) <==> r in results && r.status != s
    decreases |results|
  {
    if results == [] {
    } else {
      assert results == [results[0]] + results[1..];
      SplitMembers(results[1..], s);
    }
  }

  lemma {:induction false} SplitCounts(results: seq<Payment>, s: Status)
    ensures multiset(Only(results, s) + Except(results, s)) == multiset(results)
    decreases |results|
  {
    if results == [] {
    } else {
      var first, rest := [results[0]], results[1..];
      assert results == first + rest;
      SplitCounts(rest, s);
      var x, y := Only(rest, s), Except(rest, s);
      assert multiset(results) == multiset(first) + multiset(x) + multiset(y);
      if first[0].status == s {
        assert Only(results, s) == first + x && Except(results, s) == y;
      } else {
        assert Only(results, s) == x && Except(results, s) == first + y;
      }
    }
  }

  lemma {:induction false} FinalAppend(p: Payment, x: seq<Payment>, y: seq<Payment>)
    ensures Final(p, x + y) == Final(Final(p, x), y)
    decreases |x|
  {
    if x == [] {
      assert x + y == y;
    } else {
      FinalAppend(Apply(p, x[0]).payment, x[1..], y);
      assert (x + y)[1..] == x[1..] + y;
    }
  }

  lemma {:induction false} RefundStays(p: Payment, results: seq<Payment>)
    requires p.status == Refund
    ensures Final(p, results).status == Refund
    decreases |results|
  {
    if results == [] {
    } else {
      RefundStays(Apply(p, results[0]).payment, results[1..]);
    }
  }

  lemma {:induction false} NeverRefunded(p: Payment, results: seq<Payment>)
    requires p.status == Failed && forall r :: r in results ==> r.status != Success
    ensures Final(p, results).status == Failed
    decreases |results|
  {
    if results == [] {
    } else {
      NeverRefunded(Apply(p, results[0]).payment, results[1..]);
    }
  }

  lemma {:induction false} SuccessStays(p: Payment, results: seq<Payment>)
    requires p.status == Failed || p.status == Success
    requires forall r :: r in results ==> r.status == Success
    ensures Final(p, results).status == Failed || Final(p, results).status == Success
    decreases |results|
  {
    if results == [] {
    } else {
      SuccessStays(Apply(p, results[0]).payment, results[1..]);
    }
  }

  /** Failures first, then everything but successes, then the successes: never refunded. */
  lemma UnrefundedOrder(p: Payment, results: seq<Payment>) returns (order: seq<Payment>)
    requires Conflict(p.status, Statuses(results))
    ensures multiset(order) == multiset(results)
    ensures Final(p, order).status != Refund
  {
    var wins, others := Only(results, Success), Except(results, Success);
    var losses, rest := Only(others, Failed), Except(others, Failed);
    order := losses + rest + wins;
    SplitMembers(results, Success);
    SplitMembers(others, Failed);
    if Open(p.status) {
      var r :| r in results && r.status == Failed;
      assert r in others && r in losses;
    }
    LossesFail(p, losses);
    NeverRefunded(Final(p, losses), rest);
    SuccessStays(Final(Final(p, losses), rest), wins);
    FinalAppend(p, losses, rest);
    FinalAppend(p, losses + rest, wins);
    Shuffle(results, Success, losses + rest) by {
      SplitCounts(others, Failed);
    }
  }

  lemma Shuffle(results: seq<Payment>, s: Status, rest: seq<Payment>)
    requires multiset(rest) == multiset(Except(results, s))
    ensures multiset(rest + Only(results, s)) == multiset(Only(results, s) + rest) == multiset(results)
  {
    SplitCounts(results, s);
    assert multiset(Only(results, s) + Except(results, s)) == multiset(Only(results, s)) + multiset(rest);
  }

  lemma {:induction false} LossesFail(p: Payment, losses: seq<Payment>)
    requires Open(p.status) || p.status == Failed
    requires forall r :: r in losses ==> r.status == Failed
    requires losses == [] ==> p.status == Failed
    ensures Final(p, losses).status == Failed
    decreases |losses|
  {
    if losses == [] {
    } else {
      assert losses[0] in losses;
      LossesFail(Apply(p, losses[0]).payment, losses[1..]);
    }
  }

  lemma {:induction false} RefundsFirst(p: Payment, refunds: seq<Payment>, others: seq<Payment>)
    requires Open(p.status) || p.status == Success
    requires refunds != [] && refunds[0].status == Refund
    ensures Final(p, refunds + others).status == Refund
  {
    FinalAppend(p, refunds, others);
    RefundStays(Apply(p, refunds[0]).payment, refunds[1..]);
    RefundStays(Final(p, refunds), others);
  }

  /** Refunds as early as they can count: refunded. */
  lemma RefundedOrder(p: Payment, results: seq<Payment>) returns (order: seq<Payment>)
    requires Conflict(p.status, Statuses(results))
    ensures multiset(order) == multiset(results)
    ensures Final(p, order).status == Refund
  {
    var refunds, others := Only(results, Refund), Except(results, Refund);
    SplitMembers(results, Refund);
    var r :| r in results && r.status == Refund;
    assert r in refunds && refunds[0] in refunds;
    Shuffle(results, Refund, others);
    if Open(p.status) {
      order := refunds + others;
      RefundsFirst(p, refunds, others);
    } else {
      order := others + refunds;
      var win :| win in results && win.status == Success;
      assert win in others;
      FinalOutcome(p, others);
      FinalAppend(p, others, refunds);
      assert refunds + [] == refunds;
      RefundsFirst(Final(p, others), refunds, []);
    }
  }

  ghost predicate Converges(p: Payment, results: seq<Payment>) {
    forall others: seq<Payment> :: Statuses(others) == Statuses(results) ==>
      Final(p, others).status == Final(p, results).status
  }

  ghost predicate Commutes(p: Payment, results: seq<Payment>) {
    forall others: seq<Payment> :: multiset(others) == multiset(results) ==>
      Final(p, others).status == Final(p, results).status
  }

  /** Convergence: whatever the order of the results, and even however often they are repeated, the
      final status is the same if and only if the results do not hold a failure and a refund together (for
      a payment already failed: a success and a refund). */
  lemma ConvergesIff(p: Payment, results: seq<Payment>)
    ensures Converges(p, results) <==> !Conflict(p.status, Statuses(results))
    ensures Commutes(p, results) <==> !Conflict(p.status, Statuses(results))
  {
    if Conflict(p.status, Statuses(results)) {
      var x := RefundedOrder(p, results);
      var y := UnrefundedOrder(p, results);
      SameStatuses(x, results);
      SameStatuses(y, results);
    } else {
      forall others: seq<Payment> | Statuses(others) == Statuses(results)
        ensures Final(p, others).status == Final(p, results).status
      {
        FinalOutcome(p, others);
        FinalOutcome(p, results);
      }
      forall others: seq<Payment> | multiset(others) == multiset(results)
        ensures Statuses(others) == Statuses(results)
      {
        SameStatuses(others, results);
      }
    }
  }

  /** The same failure and refund: refunded in one order, failed in the other. */
  lemma FailureMeetsRefund()
    ensures var lost, back := Payment(Failed, "t"), Payment(Refund, "t");
            Final(Payment(Init, ""), [lost, back]).status == Failed &&
              Final(Payment(Init, ""), [back, lost]).status == Refund
  {
    var lost, back := Payment(Failed, "t"), Payment(Refund, "t");
    assert [lost, back][1..] == [back] && [back, lost][1..] == [lost];
    assert Final(Apply(Payment(Init, ""), lost).payment, [back]).status == Failed;
    assert Final(Apply(Payment(Init, ""), back).payment, [lost]).status == Refund;
  }

  lemma SameStatuses(x: seq<Payment>, y: seq<Payment>)
    requires multiset(x) == multiset(y)
    ensures Statuses(x) == Statuses(y)
  {
    assert forall r :: r in x <==> r in multiset(x);
    assert forall r :: r in y <==> r in multiset(y);
  }

  // ---------------------------------------------------------------- the callback and its outbox row

  datatype Row = Row(trade: int, payment: Payment)
  datatype Db = Db(payments: map<int, Payment>, outbox: seq<Row>)

  /** The provider's names for a status. */
  function StatusOf(tradeState: string): Option<Status> {
    if tradeState in {"SUCCESS", "TRADE_SUCCESS", "TRADE_FINISHED"} then Some(Success)
    else if tradeState in {"PAYERROR", "CLOSED", "REVOKED", "TRADE_CLOSED"} then Some(Failed)
    else if tradeState in {"NOTPAY", "USERPAYING", "WAIT_BUYER_PAY"} then Some(Init)
    else if tradeState == "REFUND" then Some(Refund)
    else None
  }

  datatype Answer = Done | UnknownState | TxnIdRequired | NotFound | AddFailed

  /** UpdatePaymentByTxn on a parsed trade number; `addOk` is whether the outbox insert works. `after` is
      what the callback makes of the payment: a success wins over everything but a refund, a failure counts
      only while nothing is decided, a refund unless the payment failed, and an open state never. */
  method UpdatePaymentByTxn(db: Db, trade: int, tradeState: string, txn: string, addOk: bool)
      returns (db': Db, r: Answer, ghost after: Payment)
    ensures !r.Done? ==> db' == db
    ensures r.UnknownState? <==>
              tradeState !in {"SUCCESS", "TRADE_SUCCESS", "TRADE_FINISHED", "PAYERROR", "CLOSED", "REVOKED",
                              "TRADE_CLOSED", "NOTPAY", "USERPAYING", "WAIT_BUYER_PAY", "REFUND"}
    ensures r.TxnIdRequired? <==> tradeState in {"SUCCESS", "TRADE_SUCCESS", "TRADE_FINISHED"} && txn == ""
    ensures r.NotFound? <==> !r.UnknownState? && !r.TxnIdRequired? && trade !in db.payments
    ensures r.AddFailed? <==>
              && !r.UnknownState? && !r.TxnIdRequired? && !r.NotFound?
              && after.status != db.payments[trade].status && !addOk
    ensures r.Done? ==>
              && db'.payments == db.payments[trade := after]
              && db'.outbox == db.outbox + if after.status != db.payments[trade].status then [Row(trade, after)] else []
    ensures r.Done? || r.AddFailed? ==>
              var before := db.payments[trade];
              && after.txn == (if before.txn == "" then txn else before.txn)
              && (tradeState in {"SUCCESS", "TRADE_SUCCESS", "TRADE_FINISHED"} ==>
                    after.status == if before.status == Refund then Refund else Success)
              && (tradeState in {"PAYERROR", "CLOSED", "REVOKED", "TRADE_CLOSED"} ==>
                    after.status == if before.status in {Success, Refund} then before.status else Failed)
              && (tradeState in {"NOTPAY", "USERPAYING", "WAIT_BUYER_PAY"} ==> after.status == before.status)
              && (tradeState == "REFUND" ==> after.status == if before.status == Failed then Failed else Refund)
    ensures db' == Do(db, Callback(trade, tradeState, txn, addOk))
  {
    db', r, after := db, Done, Payment(Init, "");
    var status := StatusOf(tradeState);
    if status.None? { r := UnknownState; return; }
    if status.value == Success && txn == "" { r := TxnIdRequired; return; }
    if trade !in db.payments { r := NotFound; return; }
    var transition := Apply(db.payments[trade], Payment(status.value, txn));
    after := transition.payment;
    if !transition.shouldPersist { return; }
    if !transition.statusChanged {
      db' := db.(payments := db.payments[trade := transition.payment]);
      return;
    }
    if !addOk { r := AddFailed; return; }
    db' := Db(db.payments[trade := transition.payment], db.outbox + [Row(trade, transition.payment)]);
  }

  datatype Op = Register(trade: int) | Callback(trade: int, tradeState: string, txn: string, addOk: bool)

  function Do(db: Db, op: Op): Db {
    match op
    case Register(trade) =>
      if trade in db.payments then db else db.(payments := db.payments[trade := Payment(Init, "")])
    case Callback(trade, tradeState, txn, addOk) =>
      var status := StatusOf(tradeState);
      if status.None? || (status.value == Success && txn == "") || trade !in db.payments then db
      else
        var t := Apply(db.payments[trade], Payment(status.value, txn));
        if t.statusChanged && !addOk then db
        else Db(db.payments[trade := t.payment],
                if t.statusChanged then db.outbox + [Row(trade, t.payment)] else db.outbox)
  }

  function After(ops: seq<Op>): Db {
    if ops == [] then Db(map[], []) else Do(After(ops[..|ops| - 1]), ops[|ops| - 1])
  }

  /** The payment each time its status changed, as an observer of the payments table sees it. */
  function Changes(ops: seq<Op>, trade: int): seq<Payment> {
    if ops == [] then []
    else
      var before, now := After(ops[..|ops| - 1]).payments, After(ops).payments;
      var past := Changes(ops[..|ops| - 1], trade);
      if trade in before && trade in now && before[trade].status != now[trade].status then past + [now[trade]] else past
  }

  function RowsOf(rows: seq<Row>, trade: int): seq<Payment> {
    if rows == [] then []
    else
      var last := rows[|rows| - 1];
      RowsOf(rows[..|rows| - 1], trade) + if last.trade == trade then [last.payment] else []
  }

  /** One payment in one database: its outbox rows are its changes, each ranked above the one before
      and at most as high as the payment is now, and each consistent with the transaction id. */
  ghost predicate Told(db: Db, trade: int, changes: seq<Payment>) {
    && RowsOf(db.outbox, trade) == changes
    && (trade !in db.payments ==> changes == [])
    && (trade in db.payments ==> Climbing(changes, db.payments[trade]))
  }

  ghost predicate Climbing(changes: seq<Payment>, now: Payment) {
    Ranked(changes, now) && Named(changes, now)
  }

  /** The ranks of the changes rise to that of the payment now. */
  ghost predicate Ranked(changes: seq<Payment>, now: Payment) {
    && (forall i, j :: 0 <= i < j < |changes| ==> Rank(changes[i].status) < Rank(changes[j].status))
    && (changes == [] ==> Rank(now.status) == 0)
    && (changes != [] ==> changes[|changes| - 1].status == now.status)
    && (forall i :: 0 <= i < |changes| ==> 0 < Rank(changes[i].status) <= Rank(now.status))
  }

  /** The changes name the transaction the payment has now, if any, and a paid one does name it. */
  ghost predicate Named(changes: seq<Payment>, now: Payment) {
    && (forall i :: 0 <= i < |changes| && changes[i].txn != "" ==> changes[i].txn == now.txn)
    && (forall i :: 0 <= i < |changes| && changes[i].status == Success ==> changes[i].txn != "")
  }

  lemma ApplyKeepsRanked(changes: seq<Payment>, p: Payment, r: Payment)
    requires Ranked(changes, p)
    ensures var t := Apply(p, r); Ranked(if t.statusChanged then changes + [t.payment] else changes, t.payment)
  {
    ApplyClimbs(p, r);
  }

  lemma ApplyKeepsNamed(changes: seq<Payment>, p: Payment, r: Payment)
    requires Named(changes, p) && (r.status == Success ==> r.txn != "")
    ensures var t := Apply(p, r); Named(if t.statusChanged then changes + [t.payment] else changes, t.payment)
  {
    ApplyClimbs(p, r);
  }

  lemma CallbackTold(db: Db, op: Op, trade: int, changes: seq<Payment>)
    requires op.Callback? && Told(db, trade, changes)
    ensures var db' := Do(db, op);
            Told(db', trade, if trade in db.payments && db.payments[trade].status != db'.payments[trade].status
                             then changes + [db'.payments[trade]] else changes)
  {
    var db' := Do(db, op);
    assert db'.outbox != db.outbox ==> db'.outbox[..|db'.outbox| - 1] == db.outbox;
    if db' != db {
      var r := Payment(StatusOf(op.tradeState).value, op.txn);
      ApplyClimbs(db.payments[op.trade], r);
      if op.trade == trade {
        ApplyKeepsRanked(changes, db.payments[trade], r);
        ApplyKeepsNamed(changes, db.payments[trade], r);
      }
    }
  }

  lemma {:induction false} EveryRunTold(ops: seq<Op>, trade: int)
    ensures Told(After(ops), trade, Changes(ops, trade))
    decreases |ops|
  {
    if ops == [] {
    } else {
      var past, op := ops[..|ops| - 1], ops[|ops| - 1];
      EveryRunTold(past, trade);
      if op.Callback? {
        CallbackTold(After(past), op, trade, Changes(past, trade));
      }
    }
  }

  lemma {:induction false} RankGrows(changes: seq<Payment>, now: Payment, i: nat)
    requires Climbing(changes, now) && i < |changes|
    ensures i < Rank(changes[i].status)
  {
    if i > 0 {
      RankGrows(changes, now, i - 1);
    }
  }

  /** In every run of registrations and provider callbacks the outbox rows of a payment are exactly
      its status changes, in order. They climb the ranks, so there are at most three; a paid one names
      its transaction, and no two of them name different ones. */
  lemma OutboxIsHistory(ops: seq<Op>, trade: int)
    ensures var rows := RowsOf(After(ops).outbox, trade);
            && rows == Changes(ops, trade)
            && |rows| <= 3
            && (forall i, j :: 0 <= i < j < |rows| ==> Rank(rows[i].status) < Rank(rows[j].status))
            && (forall i :: 0 <= i < |rows| && rows[i].status == Success ==> rows[i].txn != "")
            && (forall i, j :: 0 <= i < j < |rows| && rows[i].txn != "" && rows[j].txn != "" ==>
              rows[i].txn == rows[j].txn)
  {
    EveryRunTold(ops, trade);
    var rows := RowsOf(After(ops).outbox, trade);
    if rows != [] {
      RankGrows(rows, After(ops).payments[trade], |rows| - 1);
    }
  }

  lemma OneMore(ops: seq<Op>, op: Op)
    ensures After(ops + [op]) == Do(After(ops), op)
  {
    assert (ops + [op])[..|ops|] == ops;
  }

  lemma RowAdded(rows: seq<Row>, trade: int, p: Payment)
    ensures RowsOf(rows + [Row(trade, p)], trade) == RowsOf(rows, trade) + [p]
  {
    assert (rows + [Row(trade, p)])[..|rows|] == rows;
  }

  lemma Registered(trade: int) returns (ops: seq<Op>)
    ensures After(ops) == Db(map[trade := Payment(Init, "")], [])
  {
    OneMore([], Register(trade));
    ops := [] + [Register(trade)];
  }

  lemma Onward(ops: seq<Op>, trade: int, tradeState: string, txn: string) returns (more: seq<Op>)
    requires trade in After(ops).payments && StatusOf(tradeState).Some? &&
             (StatusOf(tradeState) == Some(Success) ==> txn != "")
    requires Apply(After(ops).payments[trade], Payment(StatusOf(tradeState).value, txn)).statusChanged
    ensures var after := Apply(After(ops).payments[trade], Payment(StatusOf(tradeState).value, txn)).payment;
            && trade in After(more).payments && After(more).payments[trade] == after
            && RowsOf(After(more).outbox, trade) == RowsOf(After(ops).outbox, trade) + [after]
  {
    var after := Apply(After(ops).payments[trade], Payment(StatusOf(tradeState).value, txn)).payment;
    OneMore(ops, Callback(trade, tradeState, txn, true));
    RowAdded(After(ops).outbox, trade, after);
    more := ops + [Callback(trade, tradeState, txn, true)];
  }

  /** A registered payment that succeeds and is refunded tells of both. */
  lemma PaidAndRefunded(trade: int) returns (ops: seq<Op>)
    ensures trade in After(ops).payments && After(ops).payments[trade] == Payment(Refund, "t")
    ensures RowsOf(After(ops).outbox, trade) == [Payment(Success, "t"), Payment(Refund, "t")]
  {
    ops := Registered(trade);
    ops := Onward(ops, trade, "SUCCESS", "t");
    ops := Onward(ops, trade, "REFUND", "");
  }
}
