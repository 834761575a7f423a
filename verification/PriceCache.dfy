/**
  The price and stock cache of products (backend/internal/product/repo/product.go): readers fill the
  cache from the database, a writer updates the row, deletes the entry, and deletes it once more a
  second later. Versions stand for prices: every write of a row gives it a new one.
 */
module PriceCache {
  import opened Options

  /** sku 0 is the product's own row, others are rows of the SKU table (repo/dao/product.go). */
  datatype Key = Key(id: int, sku: int)

  /** A read on its way into the cache. */
  datatype Fill = Fill(key: Key, version: int)

  datatype Phase = RowUpdated | Written | DeletedOnce | DeletedTwice

  /** One call of UpdateProduct and the delayed delete it starts. */
  datatype Update = Update(key: Key, version: int, phase: Phase)

  datatype World = World(
    rows: map<Key, int>,
    cache: map<Key, int>,
    clock: int,
    fills: map<int, Fill>,
    updates: map<int, Update>)

  datatype Step =
    | Create(f: int, key: Key)
    | BeginFill(f: int, key: Key)
    | EndFill(f: int, setOk: bool)
    | UpdateRow(u: int, key: Key)
    | UpsertSku(u: int)
    | Delete(u: int)
    | DelayedDelete(u: int)
    | DeleteProduct(id: int)
    | Expire(key: Key)

  /** The id of a product that is yet to be created: nothing speaks of it. */
  predicate Unused(w: World, id: int) {
    && (forall k :: k in w.rows ==> k.id != id)
    && (forall k :: k in w.cache ==> k.id != id)
    && (forall f :: f in w.fills ==> w.fills[f].key.id != id)
    && (forall u :: u in w.updates ==> w.updates[u].key.id != id)
  }

  predicate In(w: World, u: int, phase: Phase) {
    u in w.updates && w.updates[u].phase == phase
  }

  predicate Enabled(w: World, s: Step) {
    match s
    case Create(f, key) => f !in w.fills && key.sku >= 0 && Unused(w, key.id)
    case BeginFill(f, key) => f !in w.fills && key in w.rows
    case EndFill(f, _) => f in w.fills
    case UpdateRow(u, key) => u !in w.updates
    case UpsertSku(u) => In(w, u, RowUpdated)
    case Delete(u) => In(w, u, Written)
    case DelayedDelete(u) => In(w, u, DeletedOnce)
    case DeleteProduct(_) => true
    case Expire(_) => true
  }

  /** The timing that the one-second delay is for: a fill that read the row before an update has
      ended when the update's delayed delete comes. */
  predicate InTime(w: World, s: Step) {
    s.DelayedDelete? && s.u in w.updates ==>
      forall f :: f in w.fills && w.fills[f].key == w.updates[s.u].key ==> w.fills[f].version >= w.updates[s.u].version
  }

  function Next(w: World, u: int, phase: Phase): World
    requires u in w.updates
  {
    w.(updates := w.updates[u := w.updates[u].(phase := phase)])
  }

  /** deleteProductCache deletes a price entry only for a SKU. */
  function Evict(w: World, key: Key): World {
    if key.sku > 0 then w.(cache := w.cache - {key}) else w
  }

  function Write(w: World, key: Key): World {
    w.(rows := w.rows[key := w.clock + 1], clock := w.clock + 1)
  }

  /** CreateProduct writes the product's own row, and for a SKU that row too, whose price it caches. */
  function DoCreate(w: World, f: int, key: Key): World {
    var w1 := Write(w, Key(key.id, 0));
    if key.sku > 0 then
      var w2 := Write(w1, key);
      w2.(fills := w.fills[f := Fill(key, w2.clock)])
    else w1
  }

  function DoUpsert(w: World, u: int): World
    requires In(w, u, RowUpdated)
  {
    var key := w.updates[u].key;
    if key.sku > 0 then
      var w' := Write(w, key);
      w'.(updates := w.updates[u := Update(key, w'.clock, Written)])
    else Next(w, u, Written)
  }

  function Do(w: World, s: Step): World
    requires Enabled(w, s)
  {
    match s
    case Create(f, key) => DoCreate(w, f, key)
    case BeginFill(f, key) => w.(fills := w.fills[f := Fill(key, w.rows[key])])
    case EndFill(f, setOk) =>
      var fill := w.fills[f];
      w.(fills := w.fills - {f}, cache := if setOk then w.cache[fill.key := fill.version] else w.cache)
    case UpdateRow(u, key) =>
      var own := Key(key.id, 0);
      (if own in w.rows then Write(w, own) else w).(updates := w.updates[u := Update(key, 0, RowUpdated)])
    case UpsertSku(u) => DoUpsert(w, u)
    case Delete(u) => Next(Evict(w, w.updates[u].key), u, DeletedOnce)
    case DelayedDelete(u) => Next(Evict(w, w.updates[u].key), u, DeletedTwice)
    case DeleteProduct(id) => w.(rows := map k | k in w.rows && k.id != id :: w.rows[k])
    case Expire(key) => w.(cache := w.cache - {key})
  }

  // ---------------------------------------------------------------- the invariant

  /** A delayed delete is still to come for something newer than version v. */
  ghost predicate Covered(w: World, key: Key, v: int) {
    exists u :: u in w.updates && Covers(w.updates[u], key, v)
  }

  predicate Covers(u: Update, key: Key, v: int) {
    u.key == key && u.version > v && (u.phase.Written? || u.phase.DeletedOnce?)
  }

  /** Whatever is old, in the cache or on its way into it, will still be deleted. */
  ghost predicate KeySafe(w: World, key: Key) {
    key in w.rows ==>
      && (key in w.cache && w.cache[key] != w.rows[key] ==> Covered(w, key, w.cache[key]))
      && (forall f :: f in w.fills && w.fills[f].key == key && w.fills[f].version != w.rows[key] ==>
            Covered(w, key, w.fills[f].version))
  }

  ghost predicate Inv(w: World) {
    && (forall k :: k in w.cache ==> w.cache[k] <= w.clock)
    && (forall f :: f in w.fills ==> w.fills[f].version <= w.clock)
    && (forall k :: k in w.rows ==> w.rows[k] <= w.clock)
    && (forall k: Key :: k.sku > 0 ==> KeySafe(w, k))
  }

  lemma StillCovered(w: World, w': World, key: Key, v: int)
    requires Covered(w, key, v)
    requires forall u :: u in w.updates && Covers(w.updates[u], key, v) ==>
             u in w'.updates && Covers(w'.updates[u], key, v)
    ensures Covered(w', key, v)
  {
    var u :| u in w.updates && Covers(w.updates[u], key, v);
    assert u in w'.updates && Covers(w'.updates[u], key, v);
  }

  lemma UpsertSafe(w: World, u: int, key: Key)
    requires Inv(w) && In(w, u, RowUpdated) && key.sku > 0
    ensures KeySafe(DoUpsert(w, u), key)
  {
    var w' := DoUpsert(w, u);
    if w.updates[u].key == key {
      forall v | v <= w.clock
        ensures Covered(w', key, v)
      {
        assert u in w'.updates && Covers(w'.updates[u], key, v);
      }
    } else {
      forall v | Covered(w, key, v)
        ensures Covered(w', key, v)
      {
        StillCovered(w, w', key, v);
      }
    }
  }

  lemma FirstDeleteSafe(w: World, u: int, key: Key)
    requires Inv(w) && In(w, u, Written) && key.sku > 0
    ensures KeySafe(Next(Evict(w, w.updates[u].key), u, DeletedOnce), key)
  {
    var w' := Next(Evict(w, w.updates[u].key), u, DeletedOnce);
    forall v | Covered(w, key, v)
      ensures Covered(w', key, v)
    {
      StillCovered(w, w', key, v);
    }
  }

  lemma DelayedDeleteSafe(w: World, u: int, key: Key)
    requires Inv(w) && In(w, u, DeletedOnce) && InTime(w, DelayedDelete(u)) && key.sku > 0
    ensures KeySafe(Next(Evict(w, w.updates[u].key), u, DeletedTwice), key)
  {
    var w' := Next(Evict(w, w.updates[u].key), u, DeletedTwice);
    forall v | Covered(w, key, v) && (w.updates[u].key == key ==> v >= w.updates[u].version)
      ensures Covered(w', key, v)
    {
      StillCovered(w, w', key, v);
    }
  }

  lemma FillSafe(w: World, s: Step, key: Key)
    requires Inv(w) && Enabled(w, s) && key.sku > 0
    requires s.Create? || s.BeginFill? || s.EndFill? || s.Expire? || s.DeleteProduct?
    ensures KeySafe(Do(w, s), key)
  {
    var w' := Do(w, s);
    assert w'.updates == w.updates && KeySafe(w, key);
    forall v | Covered(w, key, v)
      ensures Covered(w', key, v)
    {
      StillCovered(w, w', key, v);
    }
  }

  lemma UpdateRowSafe(w: World, u: int, changed: Key, key: Key)
    requires Inv(w) && u !in w.updates && key.sku > 0
    ensures KeySafe(Do(w, UpdateRow(u, changed)), key)
  {
    var w' := Do(w, UpdateRow(u, changed));
    assert KeySafe(w, key);
    forall v | Covered(w, key, v)
      ensures Covered(w', key, v)
    {
      StillCovered(w, w', key, v);
    }
  }

  lemma VersionsBounded(w: World, s: Step)
    requires Inv(w) && Enabled(w, s)
    ensures forall k :: k in Do(w, s).cache ==> Do(w, s).cache[k] <= Do(w, s).clock
    ensures forall f :: f in Do(w, s).fills ==> Do(w, s).fills[f].version <= Do(w, s).clock
    ensures forall k :: k in Do(w, s).rows ==> Do(w, s).rows[k] <= Do(w, s).clock
  {
  }

  lemma StepSafe(w: World, s: Step)
    requires Inv(w) && Enabled(w, s) && InTime(w, s)
    ensures Inv(Do(w, s))
  {
    VersionsBounded(w, s);
    forall key: Key | key.sku > 0
      ensures KeySafe(Do(w, s), key)
    {
      assert KeySafe(w, key);
      match s
      case UpdateRow(u, changed) => UpdateRowSafe(w, u, changed, key);
      case UpsertSku(u) => UpsertSafe(w, u, key);
      case Delete(u) => FirstDeleteSafe(w, u, key);
      case DelayedDelete(u) => DelayedDeleteSafe(w, u, key);
      case _ => FillSafe(w, s, key);
    }
  }

  // ---------------------------------------------------------------- every run

  function Empty(): World {
    World(map[], map[], 0, map[], map[])
  }

  ghost predicate IsRun(w: World, steps: seq<Step>)
    decreases |steps|
  {
    steps == [] || (Enabled(w, steps[0]) && IsRun(Do(w, steps[0]), steps[1..]))
  }

  ghost predicate Timely(w: World, steps: seq<Step>)
    requires IsRun(w, steps)
    decreases |steps|
  {
    steps == [] || (InTime(w, steps[0]) && Timely(Do(w, steps[0]), steps[1..]))
  }

  ghost function After(w: World, steps: seq<Step>): World
    requires IsRun(w, steps)
    decreases |steps|
  {
    if steps == [] then w else After(Do(w, steps[0]), steps[1..])
  }

  lemma {:induction false} EveryRun(w: World, steps: seq<Step>)
    requires IsRun(w, steps) && Timely(w, steps) && Inv(w)
    ensures Inv(After(w, steps))
    decreases |steps|
  {
    if steps == [] {
    } else {
      StepSafe(w, steps[0]);
      EveryRun(Do(w, steps[0]), steps[1..]);
    }
  }

  /** No fill and no delete is on its way for this key. */
  predicate Quiet(w: World, key: Key) {
    && (forall f :: f in w.fills ==> w.fills[f].key != key)
    && (forall u :: u in w.updates && w.updates[u].key == key ==>
      w.updates[u].phase.DeletedTwice? || w.updates[u].phase.RowUpdated?)
  }

  /** An entry that does not agree with its row is being waited for: the delayed delete of a newer
      update is still to come. */
  lemma StaleIsCovered(steps: seq<Step>, key: Key)
    requires IsRun(Empty(), steps) && Timely(Empty(), steps) && key.sku > 0
    ensures var w := After(Empty(), steps);
            key in w.rows && key in w.cache && w.cache[key] != w.rows[key] ==> Covered(w, key, w.cache[key])
  {
    EveryRun(Empty(), steps);
    assert KeySafe(After(Empty(), steps), key);
  }

  // ---------------------------------------------------------------- what the timing is for

  lemma {:induction false} RunAppend(w: World, steps: seq<Step>, s: Step)
    requires IsRun(w, steps) && Enabled(After(w, steps), s)
    ensures IsRun(w, steps + [s]) && After(w, steps + [s]) == Do(After(w, steps), s)
    ensures Timely(w, steps + [s]) ==> InTime(After(w, steps), s)
    decreases |steps|
  {
    if steps == [] {
      assert ([] + [s])[1..] == [];
    } else {
      RunAppend(Do(w, steps[0]), steps[1..], s);
      assert (steps + [s])[1..] == steps[1..] + [s];
    }
  }

  /** An update up to its delayed delete, while a fill that read the row before is on its way. */
  lemma SlowFill(key: Key) returns (steps: seq<Step>)
    requires key.sku > 0
    ensures IsRun(Empty(), steps)
    ensures After(Empty(), steps) ==
              World(map[Key(key.id, 0) := 3, key := 4], map[], 4, map[0 := Fill(key, 2)],
                map[0 := Update(key, 4, DeletedOnce)])
  {
    RunAppend(Empty(), [], Create(0, key));
    steps := [] + [Create(0, key)];
    var w := After(Empty(), steps);
    assert w == World(map[Key(key.id, 0) := 1, key := 2], map[], 2, map[0 := Fill(key, 2)], map[]);
    RunAppend(Empty(), steps, UpdateRow(0, key));
    steps := steps + [UpdateRow(0, key)];
    RunAppend(Empty(), steps, UpsertSku(0));
    steps := steps + [UpsertSku(0)];
    RunAppend(Empty(), steps, Delete(0));
    steps := steps + [Delete(0)];
  }

  /** A fill slower than the delay leaves an old price in the cache, with nothing left to delete it. */
  lemma SlowFillStaysStale(key: Key) returns (steps: seq<Step>)
    requires key.sku > 0
    ensures IsRun(Empty(), steps) && !Timely(Empty(), steps)
    ensures var w := After(Empty(), steps);
            Quiet(w, key) && key in w.rows && key in w.cache && w.cache[key] != w.rows[key]
  {
    steps := SlowFill(key);
    var w := After(Empty(), steps);
    assert 0 in w.fills && !InTime(w, DelayedDelete(0));
    RunAppend(Empty(), steps, DelayedDelete(0));
    steps := steps + [DelayedDelete(0)];
    NotTimelyOn(Empty(), steps, EndFill(0, true));
    RunAppend(Empty(), steps, EndFill(0, true));
    steps := steps + [EndFill(0, true)];
  }

  lemma {:induction false} NotTimelyOn(w: World, steps: seq<Step>, s: Step)
    requires IsRun(w, steps) && !Timely(w, steps) && Enabled(After(w, steps), s)
    ensures IsRun(w, steps + [s]) && !Timely(w, steps + [s])
    decreases |steps|
  {
    RunAppend(w, steps, s);
    if InTime(w, steps[0]) {
      NotTimelyOn(Do(w, steps[0]), steps[1..], s);
      assert (steps + [s])[1..] == steps[1..] + [s];
    }
  }

  /** An undisturbed update: the SKU, if it is about one, and the product's own row get a price newer than
      any before, nothing else changes price, and of the cache only the SKU's entry goes. */
  lemma UpdateWrites(w: World, u: int, key: Key)
    requires u !in w.updates
    ensures var w' := Do(Do(Do(w, UpdateRow(u, key)), UpsertSku(u)), Delete(u));
            && (key.sku > 0 ==> key in w'.rows && w'.rows[key] > w.clock)
            && (Key(key.id, 0) in w.rows ==> Key(key.id, 0) in w'.rows && w'.rows[Key(key.id, 0)] > w.clock)
            && (forall k :: k != key && k != Key(key.id, 0) ==>
                  (k in w'.rows <==> k in w.rows) && (k in w.rows ==> w'.rows[k] == w.rows[k]))
            && w'.cache == if key.sku > 0 then w.cache - {key} else w.cache
  {
    var w1 := Do(w, UpdateRow(u, key));
    var w2 := Do(w1, UpsertSku(u));
    assert w2.updates[u].key == key && w2.cache == w.cache;
  }

  /** A deleted product loses all its rows and no cached price; an expiry takes one entry and no row. */
  lemma RemovalsRemove(w: World, id: int, key: Key)
    ensures var w' := Do(w, DeleteProduct(id));
            w'.cache == w.cache && forall k :: k in w'.rows <==> k in w.rows && k.id != id
    ensures var w' := Do(w, Expire(key));
            w'.rows == w.rows && forall k :: k in w'.cache <==> k in w.cache && k != key
  {
  }

  // ---------------------------------------------------------------- the repository's methods

  predicate Touches(s: Step, fill: int, update: int) {
    match s
    case Create(f, _) => f == fill
    case BeginFill(f, _) => f == fill
    case EndFill(f, _) => f == fill
    case UpdateRow(u, _) => u == update
    case UpsertSku(u) => u == update
    case Delete(u) => u == update
    case DelayedDelete(u) => u == update
    case _ => false
  }

  /** The repository over its database and cache. Between any two of its accesses others act. */
  class CacheAsideProductRepo {
    var world: World

    constructor ()
      ensures Valid() && world == Empty()
    {
      world := Empty();
    }

    ghost predicate Valid()
      reads this
    {
      Inv(world)
    }

    method Take(s: Step)
      requires Valid() && Enabled(world, s) && InTime(world, s)
      modifies this
      ensures Valid() && world == Do(old(world), s)
    {
      StepSafe(world, s);
      world := Do(world, s);
    }

    /** Others act in time; what is not possible now does not happen. */
    method Meanwhile(fill: int, update: int, steps: seq<Step>)
      requires Valid()
      modifies this
      ensures Valid()
      ensures (fill in world.fills <==> fill in old(world).fills) &&
              (fill in world.fills ==> world.fills[fill] == old(world).fills[fill])
      ensures (update in world.updates <==> update in old(world).updates)
      ensures update in world.updates ==> world.updates[update] == old(world).updates[update]
    {
      for i := 0 to |steps|
        invariant Valid()
        invariant (fill in world.fills <==> fill in old(world).fills) &&
                  (fill in world.fills ==> world.fills[fill] == old(world).fills[fill])
        invariant (update in world.updates <==> update in old(world).updates)
        invariant update in world.updates ==> world.updates[update] == old(world).updates[update]
      {
        if Enabled(world, steps[i]) && InTime(world, steps[i]) && !Touches(steps[i], fill, update) {
          Take(steps[i]);
        }
      }
    }

    /** UpdateProduct; the delayed delete is left to DelayedDelete. */
    method UpdateProduct(u: int, key: Key, skuOk: bool, others: nat -> seq<Step>) returns (ok: bool)
      requires Valid() && u !in world.updates
      modifies this
      ensures Valid() && u in world.updates && world.updates[u].key == key
      ensures ok <==> (key.sku > 0 ==> skuOk)
      ensures world.updates[u].phase == if ok then DeletedOnce else RowUpdated
      ensures ok && key.sku > 0 ==> key !in world.cache
    {
      Take(UpdateRow(u, key));
      Meanwhile(-1, u, others(0));
      if key.sku > 0 && !skuOk {
        return false;
      }
      Take(UpsertSku(u));
      Meanwhile(-1, u, others(1));
      Take(Delete(u));
      return true;
    }

    /** delayedDelete, no earlier than every fill that read the row before the update has ended. */
    method DelayedDelete(u: int)
      requires Valid() && In(world, u, DeletedOnce) && InTime(world, Step.DelayedDelete(u))
      modifies this
      ensures Valid() && In(world, u, DeletedTwice)
      ensures world.updates[u].key.sku > 0 ==> world.updates[u].key !in world.cache
    {
      Take(Step.DelayedDelete(u));
    }

    /** The price part of GetProduct: the cache entry if there is one; otherwise what an earlier caller's
        load for the same key, still in flight, has read; otherwise the row, which is then put into the
        cache. A price not read by this call is the row's, unless the delayed delete of a newer update is
        still to come; one read by it is the row's at that moment. */
    method GetPrice(f: int, key: Key, flight: Option<int>, setOk: bool, others: nat -> seq<Step>)
        returns (price: Option<int>)
      requires Valid() && f !in world.fills
      requires flight.Some? ==> flight.value in world.fills && world.fills[flight.value].key == key
      modifies this
      ensures Valid() && f !in world.fills
      ensures key in old(world).cache ==> world == old(world) && price == Some(world.cache[key])
      ensures key !in old(world).cache && flight.Some? ==>
              world == old(world) && price == Some(world.fills[flight.value].version)
      ensures (key in old(world).cache || flight.Some?) && key.sku > 0 && key in world.rows ==>
                price.value == world.rows[key] || Covered(world, key, price.value)
      ensures key !in old(world).cache && flight.None? ==>
                price == if key in old(world).rows then Some(old(world).rows[key]) else None
      ensures key !in old(world).cache && flight.None? && setOk && key in old(world).rows ==>
                key in world.cache && price == Some(world.cache[key])
    {
      assert KeySafe(world, key) || key.sku <= 0;
      if key in world.cache {
        return Some(world.cache[key]);
      }
      if flight.Some? {
        var g: int := flight.value;
        assert g in world.fills && world.fills[g].key == key;
        return Some(world.fills[g].version);
      }
      if key !in world.rows {
        return None;
      }
      Take(BeginFill(f, key));
      price := Some(world.fills[f].version);
      Meanwhile(f, -1, others(0));
      Take(EndFill(f, setOk));
    }
  }
}
