/**
  Reserving coupons for an order: all of them or none (backend/internal/coupon/usecase/reserve_coupon.go
  over BatchReserve of coupon/infra/repository/coupon_repo.go).
 */
module Coupons {
  import opened Collections
  import opened PlaceOrder

  /** The ids without repetitions, each where it first occurred. */
  function FirstOccurrences(ids: seq<int>): seq<int> {
    if ids == [] then []
    else
      var front, last := ids[..|ids| - 1], ids[|ids| - 1];
      FirstOccurrences(front) + if last in front then [] else [last]
  }

  lemma {:induction false} FirstOccurrencesFacts(ids: seq<int>)
    ensures Distinct(FirstOccurrences(ids))
    ensures forall id :: id in FirstOccurrences(ids) <==> id in ids
    ensures FirstOccurrences(ids) == [] <==> ids == []
    decreases |ids|
  {
    if ids == [] {
    } else {
      var front, last := ids[..|ids| - 1], ids[|ids| - 1];
      assert ids == front + [last];
      FirstOccurrencesFacts(front);
      if last !in front {
        DistinctConcat(FirstOccurrences(front), [last]);
      }
    }
  }

  lemma SameElements(ids: seq<int>)
    ensures Elements(FirstOccurrences(ids)) == Elements(ids)
  {
    FirstOccurrencesFacts(ids);
    forall id
      ensures id in Elements(FirstOccurrences(ids)) <==> id in Elements(ids)
    {
      assert id in FirstOccurrences(ids) <==> id in ids;
    }
  }

  /** Ids keep the order in which they first occurred: more ids only add to the end. */
  lemma {:induction false} OrderKept(ids: seq<int>, k: nat)
    requires k <= |ids|
    ensures FirstOccurrences(ids[..k]) <= FirstOccurrences(ids)
    decreases |ids|
  {
    if k < |ids| {
      OrderKept(ids[..|ids| - 1], k);
      assert ids[..|ids| - 1][..k] == ids[..k];
    } else {
      assert ids[..k] == ids;
    }
  }

  /** normalizeCouponIDs. */
  method NormalizeCouponIds(ids: seq<int>) returns (result: seq<int>, ok: bool)
    ensures ok <==> forall id :: id in ids ==> id > 0
    ensures result == if ok then FirstOccurrences(ids) else []
  {
    var seen: set<int> := {};
    result := [];
    for i := 0 to |ids|
      invariant result == FirstOccurrences(ids[..i])
      invariant forall id :: id in seen <==> id in ids[..i]
      invariant forall id :: id in ids[..i] ==> id > 0
    {
      var id := ids[i];
      assert ids[..i + 1] == ids[..i] + [id];
      if id <= 0 {
        assert id in ids;
        return [], false;
      }
      assert ids[..i + 1][..i] == ids[..i];
      if id in seen {
        continue;
      }
      seen := seen + {id};
      result := result + [id];
    }
    assert ids[..|ids|] == ids;
    return result, true;
  }

  /** The coupons BatchReserve touches. */
  function Affected(coupons: map<int, Coupon>, ids: seq<int>): set<int> {
    set id | id in ids && id in coupons && coupons[id].Unused?
  }

  /** Counting rows is enough to know that none of the coupons was taken meanwhile. */
  lemma AllUnusedIff(coupons: map<int, Coupon>, ids: seq<int>)
    requires Distinct(ids)
    ensures |Affected(coupons, ids)| == |ids| <==> forall id :: id in ids ==> id in coupons && coupons[id].Unused?
  {
    DistinctSize(ids);
    SubsetSize(Affected(coupons, ids), Elements(ids));
    if |Affected(coupons, ids)| == |ids| {
      forall id | id in ids
        ensures id in coupons && coupons[id].Unused?
      {
        assert id in Elements(ids);
        assert id in Affected(coupons, ids);
      }
    }
    if forall id :: id in ids ==> id in coupons && coupons[id].Unused? {
      assert Affected(coupons, ids) == Elements(ids);
    }
  }

  /** BatchReserve: a conditional update, rolled back unless it touched a row for every id. */
  method BatchReserve(coupons: map<int, Coupon>, ids: seq<int>, orderId: int, updateOk: bool)
    returns (done: bool, conflict: bool, coupons': map<int, Coupon>)
    requires Distinct(ids)
    ensures done <==> updateOk && forall id :: id in ids ==> id in coupons && coupons[id].Unused?
    ensures conflict <==> updateOk && !done
    ensures coupons' == if done then Reserve(coupons, orderId, Elements(ids)) else coupons
  {
    coupons' := coupons;
    if !updateOk {
      return false, false, coupons;
    }
    AllUnusedIff(coupons, ids);
    if |Affected(coupons, ids)| != |ids| {
      return false, true, coupons;
    }
    coupons' := map c | c in coupons :: if c in ids then Locked(orderId) else coupons[c];
    return true, false, coupons';
  }

  datatype Reason = NotAvailable | StatusChanged
  datatype Failure = Failure(couponId: int, reason: Reason)
  datatype Output = AllReserved(count: nat) | Unreserved(failures: seq<Failure>) | Rejected

  function Unavailable(ids: seq<int>, available: set<int>): seq<Failure> {
    if ids == [] then []
    else
      var n := |ids| - 1;
      Unavailable(ids[..n], available) + if ids[n] in available then [] else [Failure(ids[n], NotAvailable)]
  }

  lemma {:induction false} NoneUnavailable(ids: seq<int>, available: set<int>)
    ensures Unavailable(ids, available) == [] <==> forall id :: id in ids ==> id in available
    decreases |ids|
  {
    if ids == [] {
    } else {
      var n := |ids| - 1;
      assert ids == ids[..n] + [ids[n]];
      NoneUnavailable(ids[..n], available);
    }
  }

  /** An id is named as not available exactly if it was asked for and is not available, and once. */
  lemma {:induction false} UnavailableAre(ids: seq<int>, available: set<int>)
    ensures forall f: Failure :: f in Unavailable(ids, available) <==>
                          f.reason == NotAvailable && f.couponId in ids && f.couponId !in available
    ensures Distinct(ids) ==> Distinct(Unavailable(ids, available))
    decreases |ids|
  {
    if ids == [] {
    } else {
      var n := |ids| - 1;
      assert ids == ids[..n] + [ids[n]];
      UnavailableAre(ids[..n], available);
      if Distinct(ids) {
        assert ids[n] !in ids[..n];
        var last := if ids[n] in available then [] else [Failure(ids[n], NotAvailable)];
        DistinctConcat(Unavailable(ids[..n], available), last);
      }
    }
  }

  lemma AllChangedAre(ids: seq<int>)
    requires Distinct(ids)
    ensures var failures := seq(|ids|, i requires 0 <= i < |ids| => Failure(ids[i], StatusChanged));
            Distinct(failures) && forall f: Failure :: f in failures <==> f.reason == StatusChanged && f.couponId in ids
  {
    var failures := seq(|ids|, i requires 0 <= i < |ids| => Failure(ids[i], StatusChanged));
    forall f: Failure | f.reason == StatusChanged && f.couponId in ids
      ensures f in failures
    {
      var i :| 0 <= i < |ids| && ids[i] == f.couponId;
      assert failures[i] == f;
    }
  }

  predicate ValidIds(ids: seq<int>) {
    ids != [] && forall id :: id in ids ==> id > 0
  }

  /** ReserveCouponUseCase.Execute. `available` is what GetAvailableByIDs read; `coupons` is the table
      when BatchReserve comes, by when others may have taken some. The coupons are all locked for the
      order, if every one was available and still is unused, or nothing changes at all. */
  method Execute(userId: int, orderId: int, ids: seq<int>, available: set<int>, readOk: bool, coupons: map<int, Coupon>,
      updateOk: bool)
    returns (out: Output, coupons': map<int, Coupon>)
    ensures out.AllReserved? <==>
              && userId > 0 && orderId > 0 && ValidIds(ids) && readOk && updateOk
              && forall id :: id in ids ==> id in available && id in coupons && coupons[id].Unused?
    ensures out.Rejected? <==>
              || userId <= 0 || orderId <= 0 || !ValidIds(ids) || !readOk
              || (!updateOk && forall id :: id in ids ==> id in available)
    ensures coupons' == if out.AllReserved? then Reserve(coupons, orderId, Elements(ids)) else coupons
    ensures out.AllReserved? ==> out.count == |Elements(ids)|
    ensures out.Unreserved? ==> Distinct(out.failures) && forall f: Failure :: f in out.failures <==>
              && f.couponId in ids
              && if forall id :: id in ids ==> id in available then f.reason == StatusChanged
                 else f.reason == NotAvailable && f.couponId !in available
  {
    coupons' := coupons;
    if userId <= 0 || orderId <= 0 {
      return Rejected, coupons;
    }
    var couponIds, ok := NormalizeCouponIds(ids);
    if !ok || |couponIds| == 0 {
      FirstOccurrencesFacts(ids);
      return Rejected, coupons;
    }
    FirstOccurrencesFacts(ids);
    SameElements(ids);
    if !readOk {
      return Rejected, coupons;
    }
    var failures := FindUnavailable(couponIds, available);
    NoneUnavailable(couponIds, available);
    UnavailableAre(couponIds, available);
    AllChangedAre(couponIds);
    if |failures| > 0 {
      return Unreserved(failures), coupons;
    }
    var done, conflict;
    done, conflict, coupons' := BatchReserve(coupons, couponIds, orderId, updateOk);
    if conflict {
      out := AllChanged(couponIds);
    } else if !done {
      out := Rejected;
    } else {
      DistinctSize(couponIds);
      out := AllReserved(|couponIds|);
    }
  }

  /** The loop of Execute over the ids that were not available. */
  method FindUnavailable(ids: seq<int>, available: set<int>) returns (failures: seq<Failure>)
    ensures failures == Unavailable(ids, available)
  {
    failures := [];
    for i := 0 to |ids|
      invariant failures == Unavailable(ids[..i], available)
    {
      assert ids[..i + 1][..i] == ids[..i];
      if ids[i] in available {
        continue;
      }
      failures := failures + [Failure(ids[i], NotAvailable)];
    }
    assert ids[..|ids|] == ids;
  }

  /** The loop of Execute after BatchReserve found some coupon taken. */
  method AllChanged(ids: seq<int>) returns (out: Output)
    ensures out == Unreserved(seq(|ids|, i requires 0 <= i < |ids| => Failure(ids[i], StatusChanged)))
  {
    var failures: seq<Failure> := [];
    for i := 0 to |ids|
      invariant failures == seq(i, j requires 0 <= j < i => Failure(ids[j], StatusChanged))
    {
      failures := failures + [Failure(ids[i], StatusChanged)];
    }
    out := Unreserved(failures);
  }
}
