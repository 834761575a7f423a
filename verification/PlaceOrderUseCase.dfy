/**
  Execute of backend/internal/checkout/usecase/place_order.go as the code writes it: one call after
  another, with any steps of other requests, order endings and events in between. Each call is a step
  of the system in PlaceOrder, so what PlaceOrderTheorems proves of every run holds of every execution.
 */
module PlaceOrderUseCases {
  import opened PlaceOrder

  /** How the outside world answers one execution, and what others do before its n-th call. */
  datatype Answers = Answers(
    commitRpcOk: bool,
    reserveCallOk: bool,
    reserveTakesEffect: bool,
    couponsRefused: bool,
    createOk: bool,
    restoreWorks: bool,
    releaseWorks: bool,
    prepayOk: bool,
    others: nat -> seq<Step>)

  lemma {:induction false} RunAppend(w: World, steps: seq<Step>, s: Step)
    requires IsRun(w, steps) && Enabled(After(w, steps), s)
    ensures IsRun(w, steps + [s]) && After(w, steps + [s]) == Do(After(w, steps), s)
    decreases |steps|
  {
    if steps == [] {
      assert ([] + [s])[1..] == [];
    } else {
      RunAppend(Do(w, steps[0]), steps[1..], s);
      assert (steps + [s])[1..] == steps[1..] + [s];
    }
  }

  lemma {:induction false} RunPrefix(w: World, steps: seq<Step>, n: nat)
    requires IsRun(w, steps) && n <= |steps|
    ensures IsRun(w, steps[..n])
    decreases |steps|
  {
    if n == 0 {
    } else {
      RunPrefix(Do(w, steps[0]), steps[1..], n - 1);
      assert steps[..n][1..] == steps[1..][..n - 1];
    }
  }

  /** The world before step n of a run. */
  ghost function WorldAt(w: World, steps: seq<Step>, n: nat): World
    requires IsRun(w, steps) && n <= |steps|
  {
    RunPrefix(w, steps, n);
    After(w, steps[..n])
  }

  lemma WorldAtStays(w: World, steps: seq<Step>, more: seq<Step>, n: nat)
    requires IsRun(w, steps) && IsRun(w, more) && steps <= more && n <= |steps|
    ensures WorldAt(w, more, n) == WorldAt(w, steps, n)
  {
    assert more[..n] == steps[..n];
  }

  /** What an execution needs at its commit and at its reservation, told by the tables alone. */
  predicate Enough(stock: map<int, int>, need: map<int, int>) {
    forall p :: p in need ==> p in stock && need[p] <= stock[p]
  }

  predicate AllUnused(coupons: map<int, Coupon>, wanted: set<int>) {
    forall c :: c in wanted ==> c in coupons && coupons[c] == Unused
  }

  class PlaceOrderUseCase {
    var world: World

    ghost const start: World
    ghost var trace: seq<Step>

    constructor (world: World)
      requires AllInOrder(world)
      ensures Valid() && this.world == world && trace == []
    {
      this.world, start, trace := world, world, [];
    }

    /** The world is what a run of the step system leads to, from a world in which every order id is in
        order: a fresh one, or any that runs lead to from there. */
    ghost predicate Valid()
      reads this
    {
      IsRun(start, trace) && After(start, trace) == world && AllInOrder(world)
    }

    method Call(s: Step)
      requires Valid() && Enabled(world, s)
      modifies this
      ensures Valid() && world == Do(old(world), s) && trace == old(trace) + [s]
    {
      RunAppend(start, trace, s);
      StepKeepsAllInOrder(world, s);
      world := Do(world, s);
      trace := trace + [s];
    }

    /** Other requests, order endings and events move on; what is not possible now does not happen. */
    method Meanwhile(id: int, steps: seq<Step>)
      requires Valid()
      modifies this
      ensures Valid() && SameFor(old(world), world, id) && old(trace) <= trace
    {
      for i := 0 to |steps|
        invariant Valid() && SameFor(old(world), world, id) && old(trace) <= trace
      {
        if steps[i].id != id && Enabled(world, steps[i]) {
          StepOnlyItsOwn(world, steps[i], id);
          Call(steps[i]);
        }
      }
    }

    /** Execute from the id on; validation, quotes and prices before it change nothing. The order is
        placed exactly when the stock was there at step `commitAt` of the run, the coupons, if any, at
        step `reserveAt`, and every call worked; otherwise the execution ends in an error. Whether the
        payment session could be opened makes no difference to that. */
    method Execute(id: int, need: map<int, int>, wanted: set<int>, a: Answers)
      returns (ok: bool, url: bool, ghost commitAt: nat, ghost reserveAt: nat)
      requires Valid() && id !in world.requests
      modifies this
      ensures Valid() && id in world.requests && old(trace) <= trace
      ensures world.requests[id].need == need && world.requests[id].wanted == wanted
      ensures |old(trace)| <= commitAt < |trace| && trace[commitAt] == Commit(id, a.commitRpcOk)
      ensures commitAt <= reserveAt < |trace|
      ensures a.commitRpcOk && Enough(WorldAt(start, trace, commitAt).stock, need) && wanted != {} ==>
                commitAt < reserveAt && trace[reserveAt].ReserveCoupons? && trace[reserveAt].id == id
      ensures ok <==>
                && a.commitRpcOk && Enough(WorldAt(start, trace, commitAt).stock, need)
                && (wanted == {} ||
                  (a.reserveCallOk && !a.couponsRefused && AllUnused(WorldAt(start, trace, reserveAt).coupons, wanted)))
                && a.createOk
      ensures ok <==> world.requests[id].phase == Placed
      ensures !ok ==> world.requests[id].phase.Errored?
      ensures !ok && a.restoreWorks && a.releaseWorks ==> world.requests[id].phase == Errored(true)
      ensures url <==> ok && a.prepayOk
      ensures ok ==>
                && id in world.orders && world.orders[id].Live?
                && id in world.commits && world.commits[id] == need && id !in world.refunds
                && forall c :: c in wanted ==> c in world.coupons && world.coupons[c] == Locked(id)
      ensures !ok && a.restoreWorks && a.releaseWorks ==>
                id !in world.orders && (id in world.commits ==> id in world.refunds) && NoCoupon(world, id)
    {
      var reached;
      reached, commitAt := TakeStock(id, need, wanted, a);
      ghost var soFar := trace;
      ok, reserveAt := reached, commitAt;
      if ok && wanted != {} {
        ok, reserveAt := TakeCouponsLater(id, a);
      }
      ghost var reserved := trace;
      if ok {
        ok := MakeOrder(id, a);
      }
      assert InOrder(world, id);
      WorldAtStays(start, soFar, trace, commitAt);
      WorldAtStays(start, reserved, trace, reserveAt);
      url := ok && a.prepayOk;
    }

    /** The part of Execute that takes the stock. */
    method TakeStock(id: int, need: map<int, int>, wanted: set<int>, a: Answers) returns (ok: bool, ghost commitAt: nat)
      requires Valid() && id !in world.requests
      modifies this
      ensures Valid() && old(trace) <= trace
      ensures |old(trace)| <= commitAt < |trace| && trace[commitAt] == Commit(id, a.commitRpcOk)
      ensures ok <==> a.commitRpcOk && InStock(WorldAt(start, trace, commitAt), need)
      ensures id in world.requests &&
              world.requests[id] == Request(if ok then Committed else Errored(true), need, wanted)
    {
      assert InOrder(world, id);
      Call(Begin(id, need, wanted));
      Meanwhile(id, a.others(0));
      commitAt := |trace|;
      ghost var soFar := trace;
      Call(Commit(id, a.commitRpcOk));
      assert trace[..commitAt] == soFar;
      ok := At(world, id, Committed);
    }

    /** Reserving coupons some time after the stock was taken. */
    method TakeCouponsLater(id: int, a: Answers) returns (ok: bool, ghost reserveAt: nat)
      requires Valid() && At(world, id, Committed) && world.requests[id].wanted != {}
      modifies this
      ensures Valid() && id in world.requests && old(trace) <= trace
      ensures |old(trace)| <= reserveAt < |trace| && trace[reserveAt].ReserveCoupons? && trace[reserveAt].id == id
      ensures ok <==> trace[reserveAt].reply == Success
      ensures ok <==>
                a.reserveCallOk && !a.couponsRefused &&
                  CanReserve(WorldAt(start, trace, reserveAt), world.requests[id].wanted)
      ensures ok ==> world.requests[id] == old(world).requests[id].(phase := Reserved)
      ensures !ok ==> exists clean :: (a.restoreWorks && a.releaseWorks ==> clean)
                        && world.requests[id] == old(world).requests[id].(phase := Errored(clean))
    {
      Meanwhile(id, a.others(1));
      reserveAt := |trace|;
      ghost var soFar := trace;
      ok := TakeCoupons(id, a);
      assert trace[..reserveAt] == soFar;
    }

    /** The part of Execute that reserves the coupons. */
    method TakeCoupons(id: int, a: Answers) returns (reserved: bool)
      requires Valid() && At(world, id, Committed) && world.requests[id].wanted != {}
      modifies this
      ensures Valid() && id in world.requests && old(trace) < trace
      ensures reserved <==>
              a.reserveCallOk && !a.couponsRefused && CanReserve(old(world), old(world).requests[id].wanted)
      ensures trace[|old(trace)|].ReserveCoupons? && trace[|old(trace)|].id == id
      ensures reserved <==> trace[|old(trace)|].reply == Success
      ensures reserved ==> world.requests[id] == old(world).requests[id].(phase := Reserved)
      ensures !reserved ==> exists clean :: (a.restoreWorks && a.releaseWorks ==> clean)
                              && world.requests[id] == old(world).requests[id].(phase := Errored(clean))
    {
      var reply := ReserveReply(a, CanReserve(world, world.requests[id].wanted));
      Call(ReserveCoupons(id, reply));
      Meanwhile(id, a.others(2));
      reserved := reply.Success?;
      if !reserved {
        UndoAfter(id, a, reply.Error?);
      }
    }

    /** What Execute undoes when it cannot reserve the coupons: after an error they may be locked. */
    method UndoAfter(id: int, a: Answers, thenRelease: bool)
      requires Valid() && id in world.requests && world.requests[id].phase == Restoring(thenRelease)
      modifies this
      ensures Valid() && id in world.requests && old(trace) <= trace
      ensures exists clean :: (a.restoreWorks && a.releaseWorks ==> clean)
                && world.requests[id] == old(world).requests[id].(phase := Errored(clean))
    {
      RestoreCommittedStock(id, a);
      if thenRelease {
        ReleaseReservedCoupons(id, a);
      }
    }

    /** The part of Execute that creates the order. */
    method MakeOrder(id: int, a: Answers) returns (ok: bool)
      requires Valid() && Enabled(world, Create(id, a.createOk))
      modifies this
      ensures Valid() && id in world.requests && ok == a.createOk && old(trace) <= trace
      ensures ok ==> world.requests[id] == old(world).requests[id].(phase := Placed)
      ensures ok ==> id in world.orders && world.orders[id].Live? && OnlyLocked(world, id)
      ensures !ok ==> exists clean :: (a.restoreWorks && a.releaseWorks ==> clean)
                        && world.requests[id] == old(world).requests[id].(phase := Errored(clean))
    {
      assert InOrder(world, id);
      Meanwhile(id, a.others(5));
      assert InOrder(world, id) && OnlyLocked(world, id);
      Call(Create(id, a.createOk));
      Meanwhile(id, a.others(3));
      ok := a.createOk;
      if !ok {
        RestoreCommittedStock(id, a);
        ReleaseReservedCoupons(id, a);
      }
    }

    /** restoreCommittedStock: a failure is logged, and Execute goes on. */
    method RestoreCommittedStock(id: int, a: Answers)
      requires Valid() && id in world.requests && world.requests[id].phase.Restoring?
      modifies this
      ensures Valid() && id in world.requests && old(trace) <= trace
      ensures world.requests[id] == old(world).requests[id].(phase :=
                if old(world).requests[id].phase.thenRelease then Releasing(a.restoreWorks)
                  else Errored(a.restoreWorks))
    {
      Call(Restore(id, a.restoreWorks));
      Meanwhile(id, a.others(4));
    }

    /** releaseReservedCoupons. */
    method ReleaseReservedCoupons(id: int, a: Answers)
      requires Valid() && id in world.requests && world.requests[id].phase.Releasing?
      modifies this
      ensures Valid() && id in world.requests && old(trace) <= trace
      ensures world.requests[id] ==
              old(world).requests[id].(phase := Errored(a.releaseWorks && old(world).requests[id].phase.clean))
    {
      Call(Release(id, a.releaseWorks));
    }
  }

  /** What the coupon service answers: it can only succeed, or fail after the fact, when every coupon
      is there to take. */
  function ReserveReply(a: Answers, possible: bool): Reply {
    if !a.reserveCallOk then Error(a.reserveTakesEffect && possible)
    else if a.couponsRefused || !possible then Refused
    else Success
  }
}
