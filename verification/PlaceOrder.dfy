/**
  Placing an order: a saga over the inventory, coupon and order services with compensations
  (backend/internal/checkout/usecase/place_order.go), run by any number of requests at once.
  The services are atomic operations with the contracts their repositories give them: a stock ledger
  that applies an operation of one name once (inventory/infra/repository/gorm.go) and answers a repeat
  with success (inventory/transport/grpc/handler.go), conditional
  coupon updates (coupon/infra/repository), and the consumers that give stock and coupons of an ended
  order back (inventory/infra/mq/order_consumer.go, coupon/infra/mq/consumer.go).
 */
module PlaceOrder {
  import Sums

  datatype Coupon = Unused | Locked(order: int) | Used(order: int)
  datatype OrderState = Live | Ended

  /** Where a request for one order id is in Execute. `clean` tells whether every compensation the
      request asked for so far worked; the code only logs one that does not. */
  datatype Phase =
    | Started
    | Committed
    | Reserved
    | Restoring(thenRelease: bool)
    | Releasing(clean: bool)
    | Placed
    | Errored(clean: bool)

  datatype Request = Request(phase: Phase, need: map<int, int>, wanted: set<int>)

  datatype World = World(
    stock: map<int, int>,
    commits: map<int, map<int, int>>,
    refunds: set<int>,
    coupons: map<int, Coupon>,
    orders: map<int, OrderState>,
    requests: map<int, Request>)

  // ---------------------------------------------------------------- the services

  function Quantity(items: map<int, int>, p: int): int {
    if p in items then items[p] else 0
  }

  function Shift(stock: map<int, int>, items: map<int, int>, sign: int): map<int, int> {
    map p | p in stock :: stock[p] + sign * Quantity(items, p)
  }

  predicate InStock(w: World, items: map<int, int>) {
    forall p :: p in items ==> p in w.stock && w.stock[p] >= items[p]
  }

  /** CommitStock: all the items or none, once per order id; the handler answers a repeat with success. */
  function CommitStock(w: World, id: int, items: map<int, int>): (World, bool) {
    if id in w.commits then (w, true)
    else if !InStock(w, items) then (w, false)
    else (w.(stock := Shift(w.stock, items, -1), commits := w.commits[id := items]), true)
  }

  /** RefundStock: gives a commit back, once per order id; without a commit there is nothing to do. */
  function RefundStock(w: World, id: int): World {
    if id !in w.commits || id in w.refunds then w
    else w.(stock := Shift(w.stock, w.commits[id], 1), refunds := w.refunds + {id})
  }

  predicate Owns(c: Coupon, id: int) {
    !c.Unused? && c.order == id
  }

  predicate CanReserve(w: World, wanted: set<int>) {
    forall c :: c in wanted ==> c in w.coupons && w.coupons[c].Unused?
  }

  /** BatchReserve, when it can. */
  function Reserve(coupons: map<int, Coupon>, id: int, wanted: set<int>): map<int, Coupon> {
    map c | c in coupons :: if c in wanted then Locked(id) else coupons[c]
  }

  /** UpdateStatusByOrderID: a release (Locked to Unused), a use (Locked to Used) or a refund. */
  function Move(coupons: map<int, Coupon>, id: int, from: Coupon, to: Coupon): map<int, Coupon> {
    map c | c in coupons :: if coupons[c] == from then to else coupons[c]
  }

  // ---------------------------------------------------------------- the steps

  datatype Reply = Success | Refused | Error(tookEffect: bool)

  datatype Step =
    | Begin(id: int, need: map<int, int>, wanted: set<int>)
    | Commit(id: int, rpcOk: bool)
    | ReserveCoupons(id: int, reply: Reply)
    | Create(id: int, ok: bool)
    | Restore(id: int, works: bool)
    | Release(id: int, works: bool)
    | EndOrder(id: int)
    | RestoreEnded(id: int)
    | CouponsUsed(id: int)
    | CouponsReleased(id: int)
    | CouponsRefunded(id: int)

  predicate Enabled(w: World, s: Step) {
    match s
    case Begin(id, _, _) => id !in w.requests
    case Commit(id, _) => At(w, id, Started)
    case ReserveCoupons(id, reply) =>
      && At(w, id, Committed) && w.requests[id].wanted != {}
      && (reply == Success || reply == Error(true) ==> CanReserve(w, w.requests[id].wanted))
    case Create(id, _) => At(w, id, Reserved) || (At(w, id, Committed) && w.requests[id].wanted == {})
    case Restore(id, _) => id in w.requests && w.requests[id].phase.Restoring?
    case Release(id, _) => id in w.requests && w.requests[id].phase.Releasing?
    case EndOrder(id) => id in w.orders && w.orders[id].Live?
    case RestoreEnded(id) => id in w.orders && w.orders[id].Ended?
    case CouponsUsed(id) => id in w.orders
    case CouponsReleased(id) => id in w.orders && w.orders[id].Ended?
    case CouponsRefunded(id) => id in w.orders && w.orders[id].Ended?
  }

  predicate At(w: World, id: int, phase: Phase) {
    id in w.requests && w.requests[id].phase == phase
  }

  function Goto(w: World, id: int, phase: Phase): World
    requires id in w.requests
  {
    w.(requests := w.requests[id := w.requests[id].(phase := phase)])
  }

  function Do(w: World, s: Step): World
    requires Enabled(w, s)
  {
    match s
    case Begin(id, need, wanted) => w.(requests := w.requests[id := Request(Started, need, wanted)])
    case Commit(id, rpcOk) => DoCommit(w, id, rpcOk)
    case ReserveCoupons(id, reply) => DoReserve(w, id, reply)
    case Create(id, ok) =>
      if ok then Goto(w.(orders := w.orders[id := Live]), id, Placed) else Goto(w, id, Restoring(true))
    case Restore(id, works) => DoRestore(w, id, works)
    case Release(id, works) => DoRelease(w, id, works)
    case EndOrder(id) => w.(orders := w.orders[id := Ended])
    case RestoreEnded(id) => RefundStock(w, id)
    case CouponsUsed(id) => w.(coupons := Move(w.coupons, id, Locked(id), Used(id)))
    case CouponsReleased(id) => w.(coupons := Move(w.coupons, id, Locked(id), Unused))
    case CouponsRefunded(id) => w.(coupons := Move(w.coupons, id, Used(id), Unused))
  }

  function DoCommit(w: World, id: int, rpcOk: bool): World
    requires At(w, id, Started)
  {
    var (w', done) := if rpcOk then CommitStock(w, id, w.requests[id].need) else (w, false);
    Goto(w', id, if done then Committed else Errored(true))
  }

  function DoReserve(w: World, id: int, reply: Reply): World
    requires At(w, id, Committed)
  {
    var taken := w.(coupons := Reserve(w.coupons, id, w.requests[id].wanted));
    match reply
    case Success => Goto(taken, id, Reserved)
    case Refused => Goto(w, id, Restoring(false))
    case Error(tookEffect) => Goto(if tookEffect then taken else w, id, Restoring(true))
  }

  function DoRestore(w: World, id: int, works: bool): World
    requires id in w.requests && w.requests[id].phase.Restoring?
  {
    var w' := if works then RefundStock(w, id) else w;
    Goto(w', id, if w.requests[id].phase.thenRelease then Releasing(works) else Errored(works))
  }

  function DoRelease(w: World, id: int, works: bool): World
    requires id in w.requests && w.requests[id].phase.Releasing?
  {
    var w' := if works then w.(coupons := Move(w.coupons, id, Locked(id), Unused)) else w;
    Goto(w', id, Errored(works && w.requests[id].phase.clean))
  }

  // ---------------------------------------------------------------- stock is conserved

  /** What each unrefunded commit holds of product p. */
  function HeldBy(w: World, p: int): map<int, int> {
    map id | id in w.commits && id !in w.refunds :: Quantity(w.commits[id], p)
  }

  ghost predicate Conserved(w: World, initial: map<int, int>) {
    && w.stock.Keys == initial.Keys
    && forall p :: p in initial ==> w.stock[p] + Sums.Total(HeldBy(w, p)) == initial[p]
  }

  lemma CommitHeld(w: World, id: int, items: map<int, int>, p: int)
    requires id !in w.commits && id !in w.refunds
    ensures Sums.Total(HeldBy(w.(commits := w.commits[id := items]), p)) ==
            Sums.Total(HeldBy(w, p)) + Quantity(items, p)
  {
    Sums.TotalUpdate(HeldBy(w, p), id, Quantity(items, p));
    assert HeldBy(w.(commits := w.commits[id := items]), p) == HeldBy(w, p)[id := Quantity(items, p)];
  }

  lemma CommitConserves(w: World, id: int, items: map<int, int>, initial: map<int, int>)
    requires Conserved(w, initial) && id !in w.refunds
    ensures Conserved(CommitStock(w, id, items).0, initial)
  {
    var w' := CommitStock(w, id, items).0;
    if w' != w {
      forall p | p in initial
        ensures w'.stock[p] + Sums.Total(HeldBy(w', p)) == initial[p]
      {
        CommitHeld(w, id, items, p);
        assert HeldBy(w', p) == HeldBy(w.(commits := w.commits[id := items]), p);
      }
    }
  }

  lemma RefundConserves(w: World, id: int, initial: map<int, int>)
    requires Conserved(w, initial)
    ensures Conserved(RefundStock(w, id), initial)
  {
    var w' := RefundStock(w, id);
    if w' != w {
      forall p | p in initial
        ensures w'.stock[p] + Sums.Total(HeldBy(w', p)) == initial[p]
      {
        Sums.TotalRemove(HeldBy(w, p), id);
        assert HeldBy(w', p) == HeldBy(w, p) - {id};
      }
    }
  }

  lemma SameLedgerConserves(w: World, w': World, initial: map<int, int>)
    requires Conserved(w, initial)
    requires w'.stock == w.stock && w'.commits == w.commits && w'.refunds == w.refunds
    ensures Conserved(w', initial)
  {
    assert forall p :: HeldBy(w', p) == HeldBy(w, p);
  }

  // ---------------------------------------------------------------- who holds what

  predicate Holding(w: World, id: int) {
    id in w.commits && id !in w.refunds
  }

  predicate NoCoupon(w: World, id: int) {
    forall c :: c in w.coupons ==> !Owns(w.coupons[c], id)
  }

  predicate AllCoupons(w: World, id: int) {
    id in w.requests && forall c :: c in w.requests[id].wanted ==> c in w.coupons && Owns(w.coupons[c], id)
  }

  /** What a request's phase says about the three services. */
  predicate InOrder(w: World, id: int) {
    if id !in w.requests then
      id !in w.commits && id !in w.orders && NoCoupon(w, id)
    else
      && (id in w.commits ==> w.commits[id] == w.requests[id].need)
      && (id in w.orders <==> w.requests[id].phase.Placed?)
      && match w.requests[id].phase
         case Started => id !in w.commits && NoCoupon(w, id)
         case Committed => Holding(w, id) && NoCoupon(w, id)
         case Reserved => Holding(w, id) && AllCoupons(w, id) && OnlyLocked(w, id)
         case Restoring(thenRelease) => Holding(w, id) && OnlyLocked(w, id) && (!thenRelease ==> NoCoupon(w, id))
         case Releasing(clean) => id in w.commits && OnlyLocked(w, id) && (clean ==> !Holding(w, id))
         case Placed => id in w.commits && (w.orders[id].Live? ==> Holding(w, id) && AllCoupons(w, id))
         case Errored(clean) => clean ==> !Holding(w, id) && NoCoupon(w, id)
  }

  predicate OnlyLocked(w: World, id: int) {
    forall c :: c in w.coupons && Owns(w.coupons[c], id) ==> w.coupons[c].Locked?
  }

  ghost predicate AllInOrder(w: World) {
    && w.refunds <= w.commits.Keys
    && forall id :: InOrder(w, id)
  }

  /** For order id `id` the two worlds are the same. */
  ghost predicate SameFor(w: World, w': World, id: int) {
    && (id in w.requests <==> id in w'.requests) && (id in w.requests ==> w'.requests[id] == w.requests[id])
    && (id in w.commits <==> id in w'.commits) && (id in w.commits ==> w'.commits[id] == w.commits[id])
    && (id in w.refunds <==> id in w'.refunds)
    && (id in w.orders <==> id in w'.orders) && (id in w.orders ==> w'.orders[id] == w.orders[id])
    && SameCoupons(w.coupons, w'.coupons, id)
  }

  ghost predicate SameCoupons(before: map<int, Coupon>, after: map<int, Coupon>, id: int) {
    && after.Keys == before.Keys
    && forall c :: c in before && (Owns(before[c], id) || Owns(after[c], id)) ==> after[c] == before[c]
  }

  lemma OthersInOrder(w: World, w': World, id: int)
    requires InOrder(w, id) && SameFor(w, w', id)
    ensures InOrder(w', id)
  {
  }

  lemma ReserveOnlyItsOwn(coupons: map<int, Coupon>, id: int, wanted: set<int>, other: int)
    requires other != id && forall c :: c in wanted ==> c in coupons && coupons[c].Unused?
    ensures SameCoupons(coupons, Reserve(coupons, id, wanted), other)
  {
  }

  lemma MoveOnlyItsOwn(coupons: map<int, Coupon>, id: int, other: int, from: Coupon, to: Coupon)
    requires !Owns(from, other) && !Owns(to, other)
    ensures SameCoupons(coupons, Move(coupons, id, from, to), other)
  {
  }

  lemma CommitOnlyItsOwn(w: World, id: int, rpcOk: bool, other: int)
    requires At(w, id, Started) && other != id
    ensures SameFor(w, DoCommit(w, id, rpcOk), other)
  {
  }

  lemma ReserveStepOnlyItsOwn(w: World, id: int, reply: Reply, other: int)
    requires Enabled(w, ReserveCoupons(id, reply)) && other != id
    ensures SameFor(w, DoReserve(w, id, reply), other)
  {
    if reply == Success || reply == Error(true) {
      ReserveOnlyItsOwn(w.coupons, id, w.requests[id].wanted, other);
    }
  }

  lemma RestoreOnlyItsOwn(w: World, id: int, works: bool, other: int)
    requires id in w.requests && w.requests[id].phase.Restoring? && other != id
    ensures SameFor(w, DoRestore(w, id, works), other)
  {
  }

  lemma StepOnlyItsOwn(w: World, s: Step, other: int)
    requires Enabled(w, s) && other != s.id
    ensures SameFor(w, Do(w, s), other)
  {
    match s
    case Commit(id, rpcOk) => CommitOnlyItsOwn(w, id, rpcOk, other);
    case ReserveCoupons(id, reply) => ReserveStepOnlyItsOwn(w, id, reply, other);
    case Restore(id, works) => RestoreOnlyItsOwn(w, id, works, other);
    case Release(id, _) => MoveOnlyItsOwn(w.coupons, id, other, Locked(id), Unused);
    case CouponsUsed(id) => MoveOnlyItsOwn(w.coupons, id, other, Locked(id), Used(id));
    case CouponsReleased(id) => MoveOnlyItsOwn(w.coupons, id, other, Locked(id), Unused);
    case CouponsRefunded(id) => MoveOnlyItsOwn(w.coupons, id, other, Used(id), Unused);
    case _ =>
  }

  lemma CommitInOrder(w: World, id: int, rpcOk: bool)
    requires At(w, id, Started) && InOrder(w, id) && id !in w.refunds
    ensures InOrder(DoCommit(w, id, rpcOk), id)
  {
  }

  lemma ReserveInOrder(w: World, id: int, reply: Reply)
    requires At(w, id, Committed) && InOrder(w, id)
    requires reply == Success || reply == Error(true) ==> CanReserve(w, w.requests[id].wanted)
    ensures InOrder(DoReserve(w, id, reply), id)
  {
  }

  lemma RestoreInOrder(w: World, id: int, works: bool)
    requires id in w.requests && w.requests[id].phase.Restoring? && InOrder(w, id)
    ensures InOrder(DoRestore(w, id, works), id)
  {
  }

  lemma ReleaseInOrder(w: World, id: int, works: bool)
    requires id in w.requests && w.requests[id].phase.Releasing? && InOrder(w, id)
    ensures InOrder(DoRelease(w, id, works), id)
  {
  }

  lemma OrderStepInOrder(w: World, s: Step)
    requires Enabled(w, s) && InOrder(w, s.id)
    requires s.EndOrder? || s.RestoreEnded? || s.CouponsUsed? || s.CouponsReleased? || s.CouponsRefunded?
    ensures InOrder(Do(w, s), s.id)
  {
  }

  lemma StepInOrder(w: World, s: Step)
    requires Enabled(w, s) && AllInOrder(w)
    ensures InOrder(Do(w, s), s.id)
  {
    assert InOrder(w, s.id);
    match s
    case Begin(_, _, _) =>
    case Commit(id, rpcOk) => CommitInOrder(w, id, rpcOk);
    case ReserveCoupons(id, reply) => ReserveInOrder(w, id, reply);
    case Create(_, _) =>
    case Restore(id, works) => RestoreInOrder(w, id, works);
    case Release(id, works) => ReleaseInOrder(w, id, works);
    case _ => OrderStepInOrder(w, s);
  }

  lemma StepKeepsAllInOrder(w: World, s: Step)
    requires Enabled(w, s) && AllInOrder(w)
    ensures AllInOrder(Do(w, s))
  {
    StepInOrder(w, s);
    forall id | id != s.id
      ensures InOrder(Do(w, s), id)
    {
      StepOnlyItsOwn(w, s, id);
      OthersInOrder(w, Do(w, s), id);
    }
    RefundsHaveCommits(w, s);
  }

  lemma RefundsHaveCommits(w: World, s: Step)
    requires Enabled(w, s) && w.refunds <= w.commits.Keys
    ensures Do(w, s).refunds <= Do(w, s).commits.Keys
  {
  }

  lemma CommitStepConserves(w: World, id: int, rpcOk: bool, initial: map<int, int>)
    requires At(w, id, Started) && Conserved(w, initial) && id !in w.refunds
    ensures Conserved(DoCommit(w, id, rpcOk), initial)
  {
    CommitConserves(w, id, w.requests[id].need, initial);
    var w' := if rpcOk then CommitStock(w, id, w.requests[id].need).0 else w;
    SameLedgerConserves(w', DoCommit(w, id, rpcOk), initial);
  }

  lemma RestoreStepConserves(w: World, id: int, works: bool, initial: map<int, int>)
    requires id in w.requests && w.requests[id].phase.Restoring? && Conserved(w, initial)
    ensures Conserved(DoRestore(w, id, works), initial)
  {
    RefundConserves(w, id, initial);
    SameLedgerConserves(if works then RefundStock(w, id) else w, DoRestore(w, id, works), initial);
  }

  lemma StepConserves(w: World, s: Step, initial: map<int, int>)
    requires Enabled(w, s) && AllInOrder(w) && Conserved(w, initial)
    ensures Conserved(Do(w, s), initial)
  {
    assert InOrder(w, s.id);
    match s
    case Commit(id, rpcOk) => CommitStepConserves(w, id, rpcOk, initial);
    case Restore(id, works) => RestoreStepConserves(w, id, works, initial);
    case RestoreEnded(id) => RefundConserves(w, id, initial);
    case _ => SameLedgerConserves(w, Do(w, s), initial);
  }

  // ---------------------------------------------------------------- every run

  /** The services before any request: this much stock, and coupons that are all unused. */
  function Fresh(initial: map<int, int>, coupons: set<int>): World {
    World(initial, map[], {}, map c | c in coupons :: Unused, map[], map[])
  }

  ghost predicate IsRun(w: World, steps: seq<Step>)
    decreases |steps|
  {
    steps == [] || (Enabled(w, steps[0]) && IsRun(Do(w, steps[0]), steps[1..]))
  }

  ghost function After(w: World, steps: seq<Step>): World
    requires IsRun(w, steps)
    decreases |steps|
  {
    if steps == [] then w else After(Do(w, steps[0]), steps[1..])
  }
}
