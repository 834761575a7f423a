/**
  Checkout arithmetic (backend/internal/checkout/usecase/adapters.go): sharing a discount out to the
  lines of an order, and adding up the quantities to take from stock.
 */
module Adapters {
  import opened Collections
  import Sums

  datatype Line = Line(productId: int, subtotal: int, available: bool)

  /** Go's integer division, which truncates towards zero. */
  function Quot(a: int, b: int): int
    requires b != 0
  {
    if (a >= 0) == (b > 0) then Abs(a) / Abs(b) else -(Abs(a) / Abs(b))
  }

  function Abs(x: int): nat {
    if x < 0 then -x else x
  }

  /** Truncation: below zero the quotient mirrors that of the absolute values. */
  lemma QuotPositive(a: int, b: int)
    requires a >= 0 && b > 0
    ensures Quot(a, b) == a / b
  {
  }

  lemma QuotMirrors(a: int, b: int)
    requires b != 0
    ensures Quot(-a, b) == -Quot(a, b)
  {
    assert Abs(-a) == Abs(a);
    if a == 0 {
      assert Abs(a) / Abs(b) == 0;
    }
  }

  function Share(l: Line, discount: int, total: int): int
    requires total != 0
  {
    Quot(discount * l.subtotal, total)
  }

  /** The share of the last available line of each product: what a map indexed by product ends with. */
  function LastShares(lines: seq<Line>, d: int, t: int): map<int, int>
    requires t != 0
  {
    if lines == [] then map[]
    else
      var rest := LastShares(lines[1..], d, t);
      if lines[0].available && lines[0].productId !in rest then
        rest[lines[0].productId := Share(lines[0], d, t)]
      else rest
  }

  /** The shares of lines whose product comes again later: these the map forgets. */
  function Overwritten(lines: seq<Line>, d: int, t: int): int
    requires t != 0
  {
    if lines == [] then 0
    else
      (if lines[0].available && lines[0].productId in LastShares(lines[1..], d, t) then Share(lines[0], d, t) else 0)
      + Overwritten(lines[1..], d, t)
  }

  function Allocated(lines: seq<Line>, d: int, t: int): int
    requires t != 0
  {
    if lines == [] then 0
    else (if lines[0].available then Share(lines[0], d, t) else 0) + Allocated(lines[1..], d, t)
  }

  function Subtotals(lines: seq<Line>): int {
    if lines == [] then 0 else (if lines[0].available then lines[0].subtotal else 0) + Subtotals(lines[1..])
  }

  function Count(lines: seq<Line>): nat {
    if lines == [] then 0 else (if lines[0].available then 1 else 0) + Count(lines[1..])
  }

  lemma {:induction false} SharesAppend(lines: seq<Line>, l: Line, d: int, t: int)
    requires t != 0
    ensures LastShares(lines + [l], d, t) ==
              if l.available then LastShares(lines, d, t)[l.productId := Share(l, d, t)] else LastShares(lines, d, t)
    ensures Allocated(lines + [l], d, t) == Allocated(lines, d, t) + if l.available then Share(l, d, t) else 0
  {
    if lines == [] {
      assert ([] + [l])[1..] == [];
    } else {
      SharesAppend(lines[1..], l, d, t);
      assert (lines + [l])[1..] == lines[1..] + [l];
    }
  }

  /** The map holds what was shared out but for the overwritten shares. */
  lemma {:induction false} KeptAndOverwritten(lines: seq<Line>, d: int, t: int)
    requires t != 0
    ensures Sums.Total(LastShares(lines, d, t)) + Overwritten(lines, d, t) == Allocated(lines, d, t)
  {
    if lines == [] {
    } else {
      KeptAndOverwritten(lines[1..], d, t);
      Sums.TotalUpdate(LastShares(lines[1..], d, t), lines[0].productId, Share(lines[0], d, t));
    }
  }

  // ---------------------------------------------------------------- the allocation

  /** Line k has the largest subtotal of the available lines, and no earlier one has as much. */
  predicate FirstLargest(lines: seq<Line>, k: int) {
    && 0 <= k < |lines| && lines[k].available
    && (forall j :: 0 <= j < |lines| && lines[j].available ==> lines[j].subtotal <= lines[k].subtotal)
    && (forall j :: 0 <= j < k && lines[j].available ==> lines[j].subtotal < lines[k].subtotal)
  }

  predicate NoneLargest(lines: seq<Line>) {
    forall j :: 0 <= j < |lines| && lines[j].available ==> lines[j].subtotal < 0
  }

  /** allocateDiscountToLines, where a missing map stands for an empty one. Besides the map it tells
      which line the remainder went to (-1: to none, as every available subtotal is negative). */
  method AllocateDiscount(lines: seq<Line>, d: int, t: int) returns (r: map<int, int>, ghost k: int)
    ensures d != 0 && t != 0 ==> FirstLargest(lines, k) || (k == -1 && NoneLargest(lines))
    ensures k == -1 || 0 <= k < |lines|
    ensures r == Allocation(lines, d, t, k)
  {
    k := -1;
    if d == 0 || t == 0 {
      return map[], -1;
    }
    r := map[];
    var sharedOut, maxSubtotal, maxProductId := 0, -1, 0;
    for i := 0 to |lines|
      invariant r == LastShares(lines[..i], d, t) && sharedOut == Allocated(lines[..i], d, t)
      invariant k == -1 ==> maxSubtotal == -1 && maxProductId == 0 && NoneLargest(lines[..i])
      invariant k != -1 ==> 0 <= k < i && FirstLargest(lines[..i], k)
      invariant k != -1 ==> maxSubtotal == lines[k].subtotal >= 0 && maxProductId == lines[k].productId
    {
      assert lines[..i + 1] == lines[..i] + [lines[i]];
      SharesAppend(lines[..i], lines[i], d, t);
      if !lines[i].available {
        continue;
      }
      var lineDiscount := Quot(d * lines[i].subtotal, t);
      r := r[lines[i].productId := lineDiscount];
      sharedOut := sharedOut + lineDiscount;
      if lines[i].subtotal > maxSubtotal {
        maxSubtotal := lines[i].subtotal;
        maxProductId := lines[i].productId;
        k := i;
      }
    }
    assert lines[..|lines|] == lines;
    LargestHasShare(lines, k, d, t);
    var remainder := d - sharedOut;
    if remainder > 0 && maxProductId != 0 {
      r := r[maxProductId := r[maxProductId] + remainder];
    }
  }

  /** The amounts by product; `k` is the line that the remainder goes to, if any. */
  function Allocation(lines: seq<Line>, d: int, t: int, k: int): map<int, int>
    requires k == -1 || 0 <= k < |lines|
  {
    if d == 0 || t == 0 then map[]
    else WithRemainder(LastShares(lines, d, t), d - Allocated(lines, d, t), if k == -1 then 0 else lines[k].productId)
  }

  function WithRemainder(shares: map<int, int>, remainder: int, productId: int): map<int, int> {
    if remainder > 0 && productId != 0 && productId in shares then
      shares[productId := shares[productId] + remainder]
    else shares
  }

  lemma LargestHasShare(lines: seq<Line>, k: int, d: int, t: int)
    requires t != 0 && (k == -1 || (0 <= k < |lines| && lines[k].available))
    ensures k == -1 || lines[k].productId in LastShares(lines, d, t)
  {
    if k != -1 {
      HasShare(lines, k, d, t);
    }
  }

  lemma {:induction false} HasShare(lines: seq<Line>, k: nat, d: int, t: int)
    requires t != 0 && k < |lines| && lines[k].available
    ensures lines[k].productId in LastShares(lines, d, t)
  {
    if k > 0 {
      HasShare(lines[1..], k - 1, d, t);
    }
  }

  // ---------------------------------------------------------------- sums, for the inputs checkout has

  /** What the callers pass: prices and so subtotals are not negative, product ids are positive, and
      the total is that of the available lines. */
  predicate Priced(lines: seq<Line>, d: int, t: int) {
    && d >= 0 && t == Subtotals(lines)
    && forall j :: 0 <= j < |lines| && lines[j].available ==> lines[j].subtotal >= 0 && lines[j].productId > 0
  }

  /** Rounding down loses less than one unit a line. */
  lemma {:induction false} RoundingLoss(lines: seq<Line>, d: int, t: int)
    requires d >= 0 && t > 0 && forall j :: 0 <= j < |lines| && lines[j].available ==> lines[j].subtotal >= 0
    ensures Allocated(lines, d, t) * t <= d * Subtotals(lines)
    ensures d * Subtotals(lines) <= (Allocated(lines, d, t) + Count(lines)) * t
    ensures Count(lines) > 0 ==> d * Subtotals(lines) < (Allocated(lines, d, t) + Count(lines)) * t
  {
    if lines == [] {
    } else {
      RoundingLoss(lines[1..], d, t);
      var s, rest := lines[0].subtotal, Allocated(lines[1..], d, t);
      if lines[0].available {
        var share := Share(lines[0], d, t);
        Floor(d, s, t);
        AddUp(share, rest, s, Subtotals(lines[1..]), Count(lines[1..]), d, t);
      }
    }
  }

  lemma AddUp(share: int, rest: int, s: int, subtotals: int, n: nat, d: int, t: int)
    requires share * t <= d * s < (share + 1) * t
    requires rest * t <= d * subtotals && d * subtotals <= (rest + n) * t
    ensures (share + rest) * t <= d * (s + subtotals) < (share + rest + 1 + n) * t
  {
    assert (share + rest) * t == share * t + rest * t;
    assert d * (s + subtotals) == d * s + d * subtotals;
    assert (share + rest + 1 + n) * t == (share + 1) * t + (rest + n) * t;
  }

  lemma Floor(d: int, s: int, t: int)
    requires d >= 0 && s >= 0 && t > 0
    ensures var q := Quot(d * s, t); q * t <= d * s < (q + 1) * t && q >= 0
  {
    NonNegativeProduct(d, s);
    FloorOf(d * s, t);
  }

  lemma NonNegativeProduct(x: int, y: int)
    requires x >= 0 && y >= 0
    ensures x * y >= 0
  {
  }

  lemma FloorOf(x: int, t: int)
    requires x >= 0 && t > 0
    ensures x / t * t <= x < (x / t + 1) * t && x / t >= 0
  {
    assert x == x / t * t + x % t;
    assert (x / t + 1) * t == x / t * t + t;
  }

  lemma Cancel(x: int, y: int, t: int)
    requires t > 0
    ensures x * t < y * t ==> x < y
    ensures x * t <= y * t ==> x <= y
  {
    if x >= y {
      NonNegativeProduct(x - y, t);
      assert (x - y) * t == x * t - y * t;
    }
    if x > y {
      NonNegativeProduct(x - y - 1, t);
      assert (x - y - 1) * t == x * t - y * t - t;
    }
  }

  lemma {:induction false} SomeLine(lines: seq<Line>, k: nat)
    requires k < |lines| && lines[k].available
    ensures Count(lines) > 0
  {
    if k > 0 {
      SomeLine(lines[1..], k - 1);
    }
  }

  /** An earlier line of a product that comes again has a share of at least one. */
  predicate Lossy(lines: seq<Line>, d: int, t: int) {
    exists i, j :: 0 <= i < j < |lines| && LossyPair(lines[i], lines[j], d, t)
  }

  predicate LossyPair(x: Line, y: Line, d: int, t: int) {
    x.available && y.available && x.productId == y.productId && d * x.subtotal >= t
  }

  predicate Among(lines: seq<Line>, p: int) {
    exists j :: 0 <= j < |lines| && lines[j].available && lines[j].productId == p
  }

  lemma {:induction false} SharesOf(lines: seq<Line>, p: int, d: int, t: int)
    requires t != 0
    ensures p in LastShares(lines, d, t) <==> Among(lines, p)
  {
    if lines == [] {
    } else {
      var rest := lines[1..];
      SharesOf(rest, p, d, t);
      if Among(rest, p) {
        var j :| 0 <= j < |rest| && rest[j].available && rest[j].productId == p;
        assert lines[j + 1] == rest[j];
      }
      if Among(lines, p) && !(lines[0].available && lines[0].productId == p) {
        var j :| 0 <= j < |lines| && lines[j].available && lines[j].productId == p;
        assert rest[j - 1] == lines[j];
      }
    }
  }

  lemma LossyCons(lines: seq<Line>, d: int, t: int)
    requires lines != []
    ensures Lossy(lines, d, t) <==>
              Lossy(lines[1..], d, t) ||
                (lines[0].available && d * lines[0].subtotal >= t && Among(lines[1..], lines[0].productId))
  {
    var rest := lines[1..];
    if Lossy(lines, d, t) {
      var i, j :| 0 <= i < j < |lines| && LossyPair(lines[i], lines[j], d, t);
      assert rest[j - 1] == lines[j] && (i > 0 ==> rest[i - 1] == lines[i]);
    }
    if Lossy(rest, d, t) {
      var i, j :| 0 <= i < j < |rest| && LossyPair(rest[i], rest[j], d, t);
      assert lines[i + 1] == rest[i] && lines[j + 1] == rest[j];
    }
    if lines[0].available && d * lines[0].subtotal >= t && Among(rest, lines[0].productId) {
      var j :| 0 <= j < |rest| && rest[j].available && rest[j].productId == lines[0].productId;
      assert LossyPair(lines[0], lines[j + 1], d, t);
    }
  }

  /** A share is nothing exactly when the line is too small for one unit. */
  lemma ShareIsZero(d: int, s: int, t: int)
    requires d >= 0 && s >= 0 && t > 0
    ensures Quot(d * s, t) >= 0 && (Quot(d * s, t) > 0 <==> d * s >= t)
  {
    Floor(d, s, t);
    var q := Quot(d * s, t);
    if q > 0 {
      NonNegativeProduct(q - 1, t);
      assert (q - 1) * t == q * t - t;
    }
  }

  lemma {:induction false} OverwrittenIff(lines: seq<Line>, d: int, t: int)
    requires d >= 0 && t > 0 && forall j :: 0 <= j < |lines| && lines[j].available ==> lines[j].subtotal >= 0
    ensures Overwritten(lines, d, t) >= 0
    ensures Overwritten(lines, d, t) > 0 <==> Lossy(lines, d, t)
  {
    if lines == [] {
    } else {
      OverwrittenIff(lines[1..], d, t);
      LossyCons(lines, d, t);
      SharesOf(lines[1..], lines[0].productId, d, t);
      if lines[0].available {
        ShareIsZero(d, lines[0].subtotal, t);
      }
    }
  }

  /** The amounts shared out and the overwritten shares together are the discount, and the remainder is
      less than the number of lines. */
  lemma DiscountAccount(lines: seq<Line>, d: int, t: int, k: int)
    requires Priced(lines, d, t) && d > 0 && t > 0 && FirstLargest(lines, k)
    ensures 0 <= d - Allocated(lines, d, t) < Count(lines)
    ensures Sums.Total(Allocation(lines, d, t, k)) + Overwritten(lines, d, t) == d
  {
    RoundingLoss(lines, d, t);
    KeptAndOverwritten(lines, d, t);
    HasShare(lines, k, d, t);
    var rest, shares := d - Allocated(lines, d, t), LastShares(lines, d, t);
    SomeLine(lines, k);
    Cancel(Allocated(lines, d, t), d, t);
    Cancel(d, Allocated(lines, d, t) + Count(lines), t);
    Sums.TotalUpdate(shares, lines[k].productId, shares[lines[k].productId] + rest);
  }

  /** The amounts add up to the discount if and only if there is nothing to share out, or there is a
      total to share by and no product comes twice with an earlier share of at least one. */
  lemma DiscountExactIff(lines: seq<Line>, d: int, t: int, k: int)
    requires Priced(lines, d, t) && (if t > 0 then FirstLargest(lines, k) else k == -1)
    ensures Sums.Total(Allocation(lines, d, t, k)) == d <==> d == 0 || (t > 0 && !Lossy(lines, d, t))
  {
    SubtotalsNonNegative(lines);
    if d > 0 && t > 0 {
      DiscountAccount(lines, d, t, k);
      OverwrittenIff(lines, d, t);
    }
  }

  lemma {:induction false} SubtotalsNonNegative(lines: seq<Line>)
    requires forall j :: 0 <= j < |lines| && lines[j].available ==> lines[j].subtotal >= 0
    ensures Subtotals(lines) >= 0
  {
    if lines == [] {
    } else {
      SubtotalsNonNegative(lines[1..]);
    }
  }

  /** Two SKUs of one product at 50 each and a discount of 10: the first share of 5 is lost. */
  lemma TwoSkusLoseAShare()
    ensures var lines := [Line(1, 50, true), Line(1, 50, true)];
            Priced(lines, 10, 100) && FirstLargest(lines, 0) && Sums.Total(Allocation(lines, 10, 100, 0)) == 5
  {
    var x := Line(1, 50, true);
    var lines := [x, x];
    assert lines[1..] == [x] && [x][1..] == [];
    assert Subtotals([x]) == 50 && Allocated([x], 10, 100) == 5 && LastShares([x], 10, 100) == map[1 := 5];
    assert Overwritten([x], 10, 100) == 0 && Overwritten(lines, 10, 100) == 5;
    DiscountAccount(lines, 10, 100, 0);
  }

  /** No two available lines have the same product. */
  predicate DistinctProducts(lines: seq<Line>) {
    forall i, j :: 0 <= i < j < |lines| && lines[i].available && lines[j].available ==>
      lines[i].productId != lines[j].productId
  }

  /** Without repeated products the amounts are exact, and each line gets its own share, the first line
      with the largest subtotal the remainder on top. */
  lemma DistinctProductsExact(lines: seq<Line>, d: int, t: int, k: int)
    requires Priced(lines, d, t) && d > 0 && t > 0 && FirstLargest(lines, k) && DistinctProducts(lines)
    ensures var rest := d - Allocated(lines, d, t);
            var r := Allocation(lines, d, t, k);
            && Sums.Total(r) == d
            && forall j :: 0 <= j < |lines| && lines[j].available ==>
                 && lines[j].productId in r
                 && r[lines[j].productId] == Share(lines[j], d, t) + if j == k then rest else 0
  {
    DiscountAccount(lines, d, t, k);
    DiscountExactIff(lines, d, t, k);
    forall j | 0 <= j < |lines| && lines[j].available
      ensures lines[j].productId in LastShares(lines, d, t) &&
              LastShares(lines, d, t)[lines[j].productId] == Share(lines[j], d, t)
    {
      OwnShare(lines, j, d, t);
    }
  }

  lemma {:induction false} OwnShare(lines: seq<Line>, k: nat, d: int, t: int)
    requires t != 0 && k < |lines| && lines[k].available && DistinctProducts(lines)
    ensures lines[k].productId in LastShares(lines, d, t)
    ensures LastShares(lines, d, t)[lines[k].productId] == Share(lines[k], d, t)
  {
    if k == 0 {
      SharesOf(lines[1..], lines[0].productId, d, t);
    } else {
      OwnShare(lines[1..], k - 1, d, t);
    }
  }

  // ---------------------------------------------------------------- quantities

  datatype CartItem = CartItem(productId: int, skuId: int, quantity: int)
  datatype StockItem = StockItem(productId: int, quantity: int)

  const TWO_32 := 0x1_0000_0000
  const TWO_31 := 0x8000_0000

  /** int32(x). */
  function Wrap32(x: int): int {
    (x + TWO_31) % TWO_32 - TWO_31
  }

  lemma WrapAdds(x: int, y: int)
    ensures Wrap32(Wrap32(x) + Wrap32(y)) == Wrap32(x + y)
    ensures Wrap32(x) == x <==> -TWO_31 <= x < TWO_31
  {
  }

  /** An order of 2^32 pieces takes nothing from stock. */
  lemma HugeOrderTakesNothing(p: int, sku: int)
    ensures Ordered([CartItem(p, sku, TWO_32)], p) == TWO_32 && Wrap32(TWO_32) == 0
  {
    assert [CartItem(p, sku, TWO_32)][..0] == [];
  }

  function Ordered(items: seq<CartItem>, p: int): int {
    if items == [] then 0
    else
      var n := |items| - 1;
      Ordered(items[..n], p) + if items[n].productId == p then items[n].quantity else 0
  }

  /** What is ordered of a product is what each part of the order has of it, down to the single item. */
  lemma {:induction false} OrderedAdds(x: seq<CartItem>, y: seq<CartItem>, p: int)
    ensures Ordered(x + y, p) == Ordered(x, p) + Ordered(y, p)
    ensures forall item :: Ordered([item], p) == if item.productId == p then item.quantity else 0
    decreases |y|
  {
    forall item: CartItem
      ensures Ordered([item], p) == if item.productId == p then item.quantity else 0
    {
      assert [item][..0] == [];
    }
    if y == [] {
      assert x + y == x;
    } else {
      var n := |y| - 1;
      OrderedAdds(x, y[..n], p);
      assert (x + y)[..|x + y| - 1] == x + y[..n];
    }
  }

  lemma {:induction false} ProductsAre(items: seq<CartItem>, p: int)
    ensures p in Products(items) <==> exists i :: 0 <= i < |items| && items[i].productId == p
    decreases |items|
  {
    if items == [] {
    } else {
      var n := |items| - 1;
      ProductsAre(items[..n], p);
      if i :| 0 <= i < n && items[i].productId == p {
        assert items[..n][i].productId == p;
      }
      if i :| 0 <= i < n && items[..n][i].productId == p {
        assert items[i].productId == p;
      }
    }
  }

  /** Reduced to 32 bits: the number in the range of an int32 that differs by a multiple of 2^32. */
  lemma WrapIs(x: int)
    ensures -0x8000_0000 <= Wrap32(x) < 0x8000_0000 && (Wrap32(x) - x) % 0x1_0000_0000 == 0
  {
  }

  function Products(items: seq<CartItem>): set<int> {
    if items == [] then {} else Products(items[..|items| - 1]) + {items[|items| - 1].productId}
  }

  function ProductIds(r: seq<StockItem>): seq<int> {
    seq(|r|, i requires 0 <= i < |r| => r[i].productId)
  }

  /** The index knows the place of every product in the result. */
  predicate Indexed(r: seq<StockItem>, index: map<int, nat>) {
    && (forall p :: p in index ==> index[p] < |r| && r[index[p]].productId == p)
    && (forall i :: 0 <= i < |r| ==> r[i].productId in index && index[r[i].productId] == i)
  }

  predicate Totals(r: seq<StockItem>, items: seq<CartItem>) {
    forall i :: 0 <= i < |r| ==> r[i].quantity == Wrap32(Ordered(items, r[i].productId))
  }

  lemma TotalsExactIff(r: seq<StockItem>, items: seq<CartItem>)
    requires Totals(r, items)
    ensures forall i :: 0 <= i < |r| ==>
              (r[i].quantity == Ordered(items, r[i].productId) <==> -TWO_31 <= Ordered(items, r[i].productId) < TWO_31)
  {
    forall i | 0 <= i < |r|
      ensures r[i].quantity == Ordered(items, r[i].productId) <==> -TWO_31 <= Ordered(items, r[i].productId) < TWO_31
    {
      WrapAdds(Ordered(items, r[i].productId), 0);
    }
  }

  lemma AllIndexed(r: seq<StockItem>, index: map<int, nat>, items: seq<CartItem>)
    requires Indexed(r, index) && forall p :: p in index <==> p in Products(items)
    ensures Distinct(ProductIds(r))
    ensures forall p :: p in ProductIds(r) <==> exists i :: 0 <= i < |items| && items[i].productId == p
  {
    forall p
      ensures p in ProductIds(r) <==> exists i :: 0 <= i < |items| && items[i].productId == p
    {
      ProductsAre(items, p);
      if p in Products(items) {
        assert ProductIds(r)[index[p]] == p;
      }
    }
  }

  /** toInventoryStockItems: one entry for every product ordered, with the sum of its quantities over
      all its SKUs, in 32 bits. */
  method ToInventoryStockItems(items: seq<CartItem>) returns (r: seq<StockItem>)
    ensures Distinct(ProductIds(r))
    ensures forall p :: p in ProductIds(r) <==> exists i :: 0 <= i < |items| && items[i].productId == p
    ensures forall i :: 0 <= i < |r| ==> r[i].quantity == Wrap32(Ordered(items, r[i].productId))
    ensures forall i :: 0 <= i < |r| ==>
              (r[i].quantity == Ordered(items, r[i].productId) <==> -TWO_31 <= Ordered(items, r[i].productId) < TWO_31)
  {
    r := [];
    var index: map<int, nat> := map[];
    for n := 0 to |items|
      invariant Indexed(r, index) && Totals(r, items[..n])
      invariant forall p :: p in index <==> p in Products(items[..n])
    {
      var item := items[n];
      assert items[..n + 1][..n] == items[..n];
      if item.productId in index {
        r := AddTo(r, index[item.productId], item.quantity, Ordered(items[..n], item.productId));
      } else {
        NotOrdered(items[..n], item.productId);
        r := r + [StockItem(item.productId, Wrap32(item.quantity))];
        index := index[item.productId := |r| - 1];
      }
    }
    assert items[..|items|] == items;
    TotalsExactIff(r, items);
    AllIndexed(r, index, items);
  }

  /** result[idx].Quantity += int32(quantity). */
  method AddTo(r: seq<StockItem>, k: nat, quantity: int, sofar: int) returns (r': seq<StockItem>)
    requires k < |r| && r[k].quantity == Wrap32(sofar)
    ensures r' == r[k := StockItem(r[k].productId, Wrap32(sofar + quantity))]
  {
    WrapAdds(sofar, quantity);
    r' := r[k := r[k].(quantity := Wrap32(r[k].quantity + Wrap32(quantity)))];
  }

  lemma {:induction false} NotOrdered(items: seq<CartItem>, p: int)
    requires p !in Products(items)
    ensures Ordered(items, p) == 0
    decreases |items|
  {
    if items == [] {
    } else {
      NotOrdered(items[..|items| - 1], p);
    }
  }
}
