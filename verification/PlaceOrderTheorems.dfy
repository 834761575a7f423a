/**
  What the place-order saga keeps over every run: stock is conserved and accounted for, an error leaves
  nothing behind, a live order holds everything, and stock never goes below zero.
 */
module PlaceOrderTheorems {
  import opened PlaceOrder
  import Sums

  lemma {:induction false} EveryRun(w: World, steps: seq<Step>, initial: map<int, int>)
    requires IsRun(w, steps) && AllInOrder(w) && Conserved(w, initial)
    ensures AllInOrder(After(w, steps)) && Conserved(After(w, steps), initial)
    decreases |steps|
  {
    if steps == [] {
    } else {
      StepKeepsAllInOrder(w, steps[0]);
      StepConserves(w, steps[0], initial);
      EveryRun(Do(w, steps[0]), steps[1..], initial);
    }
  }

  lemma FreshInOrder(initial: map<int, int>, coupons: set<int>)
    ensures AllInOrder(Fresh(initial, coupons)) && Conserved(Fresh(initial, coupons), initial)
  {
    var w := Fresh(initial, coupons);
    forall p | p in initial
      ensures Sums.Total(HeldBy(w, p)) == 0
    {
      assert HeldBy(w, p) == map[];
    }
  }

  /** Somebody still answers for this order id: a request on its way, a live order, an ended order
      whose event is still to come, or a compensation that failed and was only logged. */
  predicate Accounted(w: World, id: int) {
    id in w.requests && match w.requests[id].phase
      case Started => false
      case Placed => id in w.orders
      case Errored(clean) => !clean
      case Releasing(clean) => !clean
      case _ => true
  }

  /** Conservation: whatever the interleaving of requests, failures, order endings and repeated
      events, the stock of a product plus what unrefunded commits hold of it never changes, and every
      unrefunded commit is accounted for. */
  lemma StockConserved(initial: map<int, int>, coupons: set<int>, steps: seq<Step>)
    requires IsRun(Fresh(initial, coupons), steps)
    ensures var w := After(Fresh(initial, coupons), steps);
            && w.stock.Keys == initial.Keys
            && (forall p :: p in initial ==> w.stock[p] + Sums.Total(HeldBy(w, p)) == initial[p])
            && (forall id :: Holding(w, id) ==> Accounted(w, id) && w.commits[id] == w.requests[id].need)
  {
    FreshInOrder(initial, coupons);
    EveryRun(Fresh(initial, coupons), steps, initial);
    var w := After(Fresh(initial, coupons), steps);
    forall id | Holding(w, id)
      ensures Accounted(w, id) && w.commits[id] == w.requests[id].need
    {
      assert InOrder(w, id);
    }
  }

  /** A request that ends in an error, its compensations having worked, leaves nothing behind: no
      order, no stock taken, no coupon locked, even when the reserve call failed after taking effect. */
  lemma ErrorLeavesNothing(initial: map<int, int>, coupons: set<int>, steps: seq<Step>, id: int)
    requires IsRun(Fresh(initial, coupons), steps)
    requires At(After(Fresh(initial, coupons), steps), id, Errored(true))
    ensures var w := After(Fresh(initial, coupons), steps);
            id !in w.orders && !Holding(w, id) && NoCoupon(w, id)
  {
    FreshInOrder(initial, coupons);
    EveryRun(Fresh(initial, coupons), steps, initial);
    assert InOrder(After(Fresh(initial, coupons), steps), id);
  }

  /** A live order holds all its stock and every coupon it was placed with, and no coupon serves two
      orders. */
  lemma LiveOrderHoldsAll(initial: map<int, int>, coupons: set<int>, steps: seq<Step>, id: int)
    requires IsRun(Fresh(initial, coupons), steps)
    ensures var w := After(Fresh(initial, coupons), steps);
            id in w.orders && w.orders[id].Live? ==>
              && At(w, id, Placed) && Holding(w, id) && w.commits[id] == w.requests[id].need
              && forall c :: c in w.requests[id].wanted ==> c in w.coupons && Owns(w.coupons[c], id)
  {
    FreshInOrder(initial, coupons);
    EveryRun(Fresh(initial, coupons), steps, initial);
    assert InOrder(After(Fresh(initial, coupons), steps), id);
  }

  /** Every request has ended, no compensation failed, and the stock of every ended order has been
      restored, once or more often. */
  predicate Quiet(w: World) {
    && (forall id :: id in w.requests ==> w.requests[id].phase.Placed? || w.requests[id].phase == Errored(true))
    && (forall id :: id in w.orders ==> w.orders[id].Live? || id in w.refunds)
  }

  lemma HoldersWhenQuiet(w: World, id: int)
    requires AllInOrder(w) && Quiet(w)
    ensures Holding(w, id) <==> id in w.orders && w.orders[id].Live?
  {
    assert InOrder(w, id);
  }

  lemma NothingHeld(w: World, p: int)
    requires forall id :: !Holding(w, id)
    ensures HeldBy(w, p) == map[]
  {
    if HeldBy(w, p) != map[] {
      var id := SomeHolder(w, p);
      assert false;
    }
  }

  lemma SomeHolder(w: World, p: int) returns (id: int)
    requires HeldBy(w, p) != map[]
    ensures Holding(w, id)
  {
    id := Sums.SomeKey(HeldBy(w, p));
  }

  /** Once everything is quiet, exactly the live orders hold stock; with no live order left, the stock
      is what it was at the start. */
  lemma OnlyLiveOrdersHold(initial: map<int, int>, coupons: set<int>, steps: seq<Step>)
    requires IsRun(Fresh(initial, coupons), steps) && Quiet(After(Fresh(initial, coupons), steps))
    ensures var w := After(Fresh(initial, coupons), steps);
            && (forall id :: Holding(w, id) <==> id in w.orders && w.orders[id].Live?)
            && ((forall id :: id in w.orders ==> w.orders[id].Ended?) ==> w.stock == initial)
  {
    FreshInOrder(initial, coupons);
    EveryRun(Fresh(initial, coupons), steps, initial);
    var w := After(Fresh(initial, coupons), steps);
    forall id
      ensures Holding(w, id) <==> id in w.orders && w.orders[id].Live?
    {
      HoldersWhenQuiet(w, id);
    }
    if forall id :: id in w.orders ==> w.orders[id].Ended? {
      forall p | p in initial
        ensures w.stock[p] == initial[p]
      {
        NothingHeld(w, p);
      }
    }
  }

  // ---------------------------------------------------------------- placing and ending undo each other

  function Minus(stock: map<int, int>, need: map<int, int>): map<int, int> {
    map p | p in stock :: if p in need then stock[p] - need[p] else stock[p]
  }

  function Plus(stock: map<int, int>, need: map<int, int>): map<int, int> {
    map p | p in stock :: if p in need then stock[p] + need[p] else stock[p]
  }

  function LockedFor(coupons: map<int, Coupon>, id: int, wanted: set<int>): map<int, Coupon> {
    map c | c in coupons :: if c in wanted then Locked(id) else coupons[c]
  }

  function UsedFor(coupons: map<int, Coupon>, id: int): map<int, Coupon> {
    map c | c in coupons :: if coupons[c] == Locked(id) then Used(id) else coupons[c]
  }

  function FreedOf(coupons: map<int, Coupon>, id: int): map<int, Coupon> {
    map c | c in coupons :: if coupons[c] == Locked(id) || coupons[c] == Used(id) then Unused else coupons[c]
  }

  /** Committing takes what is needed from stock, and nothing else. */
  lemma CommitTakes(w: World, id: int)
    requires At(w, id, Started) && id !in w.commits && InStock(w, w.requests[id].need)
    ensures var w' := Do(w, Commit(id, true));
            && At(w', id, Committed) && w'.requests[id] == w.requests[id].(phase := Committed)
            && w'.stock == Minus(w.stock, w.requests[id].need) && w'.commits == w.commits[id := w.requests[id].need]
            && w'.refunds == w.refunds && w'.coupons == w.coupons && w'.orders == w.orders
  {
  }

  /** Reserving locks the wanted coupons for the order, and nothing else. */
  lemma ReserveLocks(w: World, id: int)
    requires Enabled(w, ReserveCoupons(id, Success))
    ensures var w' := Do(w, ReserveCoupons(id, Success));
            && At(w', id, Reserved) && w'.requests[id] == w.requests[id].(phase := Reserved)
            && w'.coupons == LockedFor(w.coupons, id, w.requests[id].wanted)
            && w'.stock == w.stock && w'.commits == w.commits && w'.refunds == w.refunds && w'.orders == w.orders
  {
  }

  /** Paying turns the locked coupons of the order into used ones, and nothing else. */
  lemma PaidUses(w: World, id: int)
    requires id in w.orders
    ensures Do(w, CouponsUsed(id)) == w.(coupons := UsedFor(w.coupons, id))
  {
  }

  /** The steps of an undisturbed execution that succeeds, up to the reservation. */
  function ReserveOne(w: World, id: int, need: map<int, int>, wanted: set<int>): World
    requires id !in w.requests && id !in w.commits && InStock(w, need) && CanReserve(w, wanted)
  {
    var w1 := Do(w, Begin(id, need, wanted));
    CommitTakes(w1, id);
    var w2 := Do(w1, Commit(id, true));
    if wanted == {} then w2 else Do(w2, ReserveCoupons(id, Success))
  }

  lemma ReservedHolds(w: World, id: int, need: map<int, int>, wanted: set<int>)
    requires id !in w.requests && id !in w.commits && InStock(w, need) && CanReserve(w, wanted)
    ensures var w' := ReserveOne(w, id, need, wanted);
            && Enabled(w', Create(id, true))
            && w'.stock == Minus(w.stock, need) && w'.commits == w.commits[id := need] && w'.refunds == w.refunds
            && w'.coupons == LockedFor(w.coupons, id, wanted) && w'.orders == w.orders
  {
    var w1 := Do(w, Begin(id, need, wanted));
    CommitTakes(w1, id);
    var w2 := Do(w1, Commit(id, true));
    if wanted == {} {
      assert LockedFor(w.coupons, id, {}) == w.coupons;
    } else {
      ReserveLocks(w2, id);
    }
  }

  function PlaceOne(w: World, id: int, need: map<int, int>, wanted: set<int>): World
    requires id !in w.requests && id !in w.commits && InStock(w, need) && CanReserve(w, wanted)
  {
    ReservedHolds(w, id, need, wanted);
    Do(ReserveOne(w, id, need, wanted), Create(id, true))
  }

  /** It leaves a live order that holds its stock and its coupons. */
  lemma PlacedTakes(w: World, id: int, need: map<int, int>, wanted: set<int>)
    requires id !in w.requests && id !in w.commits && InStock(w, need) && CanReserve(w, wanted)
    ensures var w' := PlaceOne(w, id, need, wanted);
            && w'.orders == w.orders[id := Live]
            && w'.stock == Minus(w.stock, need) && w'.commits == w.commits[id := need] && w'.refunds == w.refunds
            && w'.coupons == LockedFor(w.coupons, id, wanted)
  {
    ReservedHolds(w, id, need, wanted);
  }

  /** What happens when a live order ends and all the events of its end arrive. */
  function EndOne(w: World, id: int): World
    requires id in w.orders && w.orders[id].Live?
  {
    var w2 := RestoreOne(w, id);
    Do(Do(w2, CouponsReleased(id)), CouponsRefunded(id))
  }

  function RestoreOne(w: World, id: int): (w': World)
    requires id in w.orders && w.orders[id].Live?
    ensures w'.orders == w.orders[id := Ended] && w'.coupons == w.coupons
  {
    Do(Do(w, EndOrder(id)), RestoreEnded(id))
  }

  lemma RestoredGivesBack(w: World, id: int)
    requires id in w.orders && w.orders[id].Live? && Holding(w, id)
    ensures !Holding(RestoreOne(w, id), id) && RestoreOne(w, id).stock == Plus(w.stock, w.commits[id])
  {
  }

  /** The stock of the order comes back, its coupons are unused again whether it had been paid or not, and
      those of other orders are as they were. */
  lemma EndedGivesBack(w: World, id: int)
    requires id in w.orders && w.orders[id].Live? && Holding(w, id)
    ensures var w' := EndOne(w, id);
            && w'.orders == w.orders[id := Ended] && !Holding(w', id)
            && w'.stock == Plus(w.stock, w.commits[id]) && w'.coupons == FreedOf(w.coupons, id)
  {
    RestoredGivesBack(w, id);
    var w2 := RestoreOne(w, id);
    assert Do(Do(w2, CouponsReleased(id)), CouponsRefunded(id)).coupons == FreedOf(w.coupons, id);
  }

  lemma GivenBack(stock: map<int, int>, need: map<int, int>)
    ensures Plus(Minus(stock, need), need) == stock
  {
  }

  lemma FreedAgain(coupons: map<int, Coupon>, id: int, wanted: set<int>, paid: bool)
    requires forall c :: c in coupons ==> !Owns(coupons[c], id) && (c in wanted ==> coupons[c].Unused?)
    ensures var locked := LockedFor(coupons, id, wanted);
            FreedOf(if paid then UsedFor(locked, id) else locked, id) == coupons
  {
    var locked := LockedFor(coupons, id, wanted);
    var held := if paid then UsedFor(locked, id) else locked;
    forall c | c in coupons
      ensures FreedOf(held, id)[c] == coupons[c]
    {
      assert c in wanted ==> locked[c] == Locked(id);
      assert c !in wanted ==> locked[c] == coupons[c] != Locked(id) && coupons[c] != Used(id);
    }
  }

  /** ROUND TRIP. An order that is placed, perhaps paid, and then ended leaves stock and coupons exactly as
      they were before it. */
  lemma PlacedThenEnded(w: World, id: int, need: map<int, int>, wanted: set<int>, paid: bool)
    requires AllInOrder(w) && id !in w.requests && InStock(w, need) && CanReserve(w, wanted)
    ensures InOrder(w, id)
    ensures var placed := PlaceOne(w, id, need, wanted);
            id in placed.orders && placed.orders[id].Live? &&
            var held := if paid then Do(placed, CouponsUsed(id)) else placed;
            held.orders == placed.orders &&
            EndOne(held, id).stock == w.stock && EndOne(held, id).coupons == w.coupons
  {
    assert InOrder(w, id);
    PlacedTakes(w, id, need, wanted);
    var placed := PlaceOne(w, id, need, wanted);
    PaidUses(placed, id);
    var held := if paid then Do(placed, CouponsUsed(id)) else placed;
    assert Holding(held, id) && held.commits[id] == need && held.orders == placed.orders;
    assert held.coupons == if paid then UsedFor(placed.coupons, id) else placed.coupons;
    EndedGivesBack(held, id);
    GivenBack(w.stock, need);
    FreedAgain(w.coupons, id, wanted, paid);
  }

  /** Order ids must not repeat. A second request with the id of a live order and a product in common
      with it is told that stock is taken, and when it then fails it gives back the stock of the first:
      the live order holds none any more. */
  lemma RepeatedIdTakesStockBack(w: World, id: int, p: int, need: map<int, int>, wanted: set<int>)
    requires id in w.orders && w.orders[id].Live? && Holding(w, id) && p in need && p in w.commits[id]
    ensures var again := w.(requests := w.requests[id := Request(Started, need, wanted)]);
            var fails := if wanted == {} then Create(id, false) else ReserveCoupons(id, Refused);
            var steps := [Commit(id, true), fails, Restore(id, true)];
            && IsRun(again, steps)
            && var w' := After(again, steps);
               w'.orders == w.orders && !Holding(w', id) && w'.stock == Shift(w.stock, w.commits[id], 1)
  {
    var again := w.(requests := w.requests[id := Request(Started, need, wanted)]);
    var fails := if wanted == {} then Create(id, false) else ReserveCoupons(id, Refused);
    assert Do(again, Commit(id, true)) == again.(requests := again.requests[id := Request(Committed, need, wanted)]);
    ThreeSteps(again, Commit(id, true), fails, Restore(id, true));
  }

  lemma ThreeSteps(w: World, x: Step, y: Step, z: Step)
    requires Enabled(w, x) && Enabled(Do(w, x), y) && Enabled(Do(Do(w, x), y), z)
    ensures IsRun(w, [x, y, z]) && After(w, [x, y, z]) == Do(Do(Do(w, x), y), z)
  {
    var w' := Do(Do(w, x), y);
    FirstStep(w', z, []);
    FirstStep(Do(w, x), y, [z]);
    FirstStep(w, x, [y, z]);
    assert [z] + [] == [z] && [y] + [z] == [y, z] && [x] + [y, z] == [x, y, z];
  }

  lemma FirstStep(w: World, s: Step, rest: seq<Step>)
    requires Enabled(w, s) && IsRun(Do(w, s), rest)
    ensures IsRun(w, [s] + rest) && After(w, [s] + rest) == After(Do(w, s), rest)
  {
    assert ([s] + rest)[1..] == rest;
  }

  predicate Positive(items: map<int, int>) {
    forall p :: p in items ==> items[p] >= 0
  }

  ghost predicate LedgerPositive(w: World) {
    Positive(w.stock) && forall id :: id in w.commits ==> Positive(w.commits[id])
  }

  ghost predicate NeedsPositive(w: World) {
    forall id :: id in w.requests ==> Positive(w.requests[id].need)
  }

  lemma CallsKeepPositive(w: World, id: int, items: map<int, int>)
    requires LedgerPositive(w) && Positive(items)
    ensures LedgerPositive(CommitStock(w, id, items).0) && LedgerPositive(RefundStock(w, id))
  {
  }

  lemma StepLedgerPositive(w: World, s: Step)
    requires Enabled(w, s) && LedgerPositive(w) && NeedsPositive(w)
    ensures LedgerPositive(Do(w, s))
  {
    var w' := Do(w, s);
    match s
    case Commit(id, rpcOk) =>
      CallsKeepPositive(w, id, w.requests[id].need);
      assert rpcOk ==> w'.stock == CommitStock(w, id, w.requests[id].need).0.stock;
    case Restore(id, works) =>
      CallsKeepPositive(w, id, map[]);
      assert works ==> w'.stock == RefundStock(w, id).stock;
    case RestoreEnded(id) => CallsKeepPositive(w, id, map[]);
    case _ => assert w'.stock == w.stock && w'.commits == w.commits;
  }

  predicate SameNeeds(w: World, w': World) {
    w'.requests.Keys == w.requests.Keys && forall id :: id in w.requests ==> w'.requests[id].need == w.requests[id].need
  }

  lemma CommitKeepsNeeds(w: World, id: int, rpcOk: bool)
    requires At(w, id, Started)
    ensures SameNeeds(w, DoCommit(w, id, rpcOk))
  {
  }

  lemma ReserveKeepsNeeds(w: World, id: int, reply: Reply)
    requires At(w, id, Committed)
    ensures SameNeeds(w, DoReserve(w, id, reply))
  {
  }

  lemma CompensationKeepsNeeds(w: World, id: int, works: bool)
    requires id in w.requests
    ensures w.requests[id].phase.Restoring? ==> SameNeeds(w, DoRestore(w, id, works))
    ensures w.requests[id].phase.Releasing? ==> SameNeeds(w, DoRelease(w, id, works))
  {
  }

  /** Only the beginning of a request sets what it needs. */
  lemma NeedsKept(w: World, s: Step)
    requires Enabled(w, s) && !s.Begin?
    ensures SameNeeds(w, Do(w, s))
  {
    match s
    case Commit(id, rpcOk) => CommitKeepsNeeds(w, id, rpcOk);
    case ReserveCoupons(id, reply) => ReserveKeepsNeeds(w, id, reply);
    case Create(_, _) =>
    case Restore(id, works) => CompensationKeepsNeeds(w, id, works);
    case Release(id, works) => CompensationKeepsNeeds(w, id, works);
    case _ =>
  }

  lemma StepNeedsPositive(w: World, s: Step)
    requires Enabled(w, s) && NeedsPositive(w) && (s.Begin? ==> Positive(s.need))
    ensures NeedsPositive(Do(w, s))
  {
    if !s.Begin? {
      NeedsKept(w, s);
    }
  }

  /** Stock never goes below zero while no request asks for a negative quantity. */
  lemma {:induction false} StockNeverNegative(w: World, steps: seq<Step>)
    requires IsRun(w, steps) && LedgerPositive(w) && NeedsPositive(w)
    requires forall i :: 0 <= i < |steps| && steps[i].Begin? ==> Positive(steps[i].need)
    ensures Positive(After(w, steps).stock)
    decreases |steps|
  {
    if steps == [] {
    } else {
      assert steps == [steps[0]] + steps[1..];
      StepLedgerPositive(w, steps[0]);
      StepNeedsPositive(w, steps[0]);
      StockNeverNegative(Do(w, steps[0]), steps[1..]);
    }
  }
}
