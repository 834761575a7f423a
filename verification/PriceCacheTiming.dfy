/**
  What keeps the price cache, exactly. For a SKU: a delayed delete may come while an older fill is on its
  way only if another, newer update's delayed delete is still to come for it. For a product's own row,
  whose key nothing ever deletes: an update may write the row only while no price of it is cached or on
  its way. Whoever keeps to that keeps the cache; whoever does not can end with a stale entry for good.
 */
module PriceCacheTiming {
  import opened PriceCache

  predicate Waiting(u: Update, key: Key) {
    u.key == key && (u.phase.Written? || u.phase.DeletedOnce?)
  }

  /** Some delete of this key is still to come. */
  ghost predicate DeleteToCome(w: World, key: Key) {
    exists u :: u in w.updates && Waiting(w.updates[u], key)
  }

  /** An update other than u covers version v. */
  ghost predicate OtherCovers(w: World, u: int, key: Key, v: int) {
    exists x :: x in w.updates && x != u && Covers(w.updates[x], key, v)
  }

  /** The step takes the last cover from no fill of this SKU. */
  ghost predicate CarefulDelete(w: World, s: Step, key: Key) {
    s.DelayedDelete? && In(w, s.u, DeletedOnce) && w.updates[s.u].key == key && key in w.rows ==>
      forall f :: f in w.fills && Older(w.fills[f], key, w.updates[s.u].version)
                  && w.fills[f].version != w.rows[key] ==>
        OtherCovers(w, s.u, key, w.fills[f].version)
  }

  predicate Older(fill: Fill, key: Key, version: int) {
    fill.key == key && fill.version < version
  }

  /** A price of this key is cached or on its way. */
  predicate Held(w: World, key: Key) {
    key in w.cache || exists f :: f in w.fills && w.fills[f].key == key
  }

  /** The step does not write a product's own row while a price of it is held. An update of any of the
      product's SKUs writes that row as well. */
  predicate CarefulWrite(w: World, s: Step, key: Key) {
    s.UpdateRow? && s.key.id == key.id && key in w.rows ==> !Held(w, key)
  }

  ghost predicate Careful(w: World, s: Step, key: Key) {
    if key.sku > 0 then CarefulDelete(w, s, key) else CarefulWrite(w, s, key)
  }

  ghost predicate CarefulRun(w: World, steps: seq<Step>, key: Key)
    requires IsRun(w, steps)
    decreases |steps|
  {
    steps == [] || (Careful(w, steps[0], key) && CarefulRun(Do(w, steps[0]), steps[1..], key))
  }

  /** For a SKU, in time is careful. */
  lemma {:induction false} TimelyIsCareful(w: World, steps: seq<Step>, key: Key)
    requires IsRun(w, steps) && Timely(w, steps) && key.sku > 0
    ensures CarefulRun(w, steps, key)
    decreases |steps|
  {
    if steps == [] {
    } else {
      TimelyIsCareful(Do(w, steps[0]), steps[1..], key);
    }
  }

  ghost predicate Bounded(w: World) {
    && (forall k :: k in w.cache ==> w.cache[k] <= w.clock)
    && (forall f :: f in w.fills ==> w.fills[f].version <= w.clock)
    && (forall k :: k in w.rows ==> w.rows[k] <= w.clock)
  }

  lemma BoundedKept(w: World, s: Step)
    requires Bounded(w) && Enabled(w, s)
    ensures Bounded(Do(w, s))
  {
  }

  ghost predicate Guarded(w: World, key: Key) {
    if key.sku > 0 then SkuGuarded(w, key) else OwnSafe(w, key)
  }

  /** Nothing held of a product's own row is old. */
  predicate OwnSafe(w: World, key: Key) {
    key in w.rows ==>
      && (key in w.cache ==> w.cache[key] == w.rows[key])
      && (forall f :: f in w.fills && w.fills[f].key == key ==> w.fills[f].version == w.rows[key])
  }

  /** What is old will still be deleted: a cached value by anybody, one on its way by a newer update. */
  ghost predicate SkuGuarded(w: World, key: Key) {
    key in w.rows ==> CacheGuarded(w, key) && forall f :: f in w.fills ==> FillGuarded(w, key, w.fills[f])
  }

  ghost predicate CacheGuarded(w: World, key: Key)
    requires key in w.rows
  {
    key in w.cache && w.cache[key] != w.rows[key] ==> DeleteToCome(w, key)
  }

  ghost predicate FillGuarded(w: World, key: Key, fill: Fill)
    requires key in w.rows
  {
    fill.key == key && fill.version != w.rows[key] ==> Covered(w, key, fill.version)
  }

  predicate Agrees(w: World, key: Key) {
    Quiet(w, key) && key in w.rows && key in w.cache ==> w.cache[key] == w.rows[key]
  }

  lemma GuardedAgrees(w: World, key: Key)
    requires Guarded(w, key)
    ensures Agrees(w, key)
  {
    if key.sku > 0 && key in w.rows && DeleteToCome(w, key) {
      var u :| u in w.updates && Waiting(w.updates[u], key);
      assert !Quiet(w, key);
    }
  }

  // ---------------------------------------------------------------- careful steps keep the guard

  /** Who waits and who covers stays when the updates stay or one of them only moves on to its first delete. */
  lemma StillWaiting(w: World, w': World, key: Key)
    requires DeleteToCome(w, key)
    requires forall u :: u in w.updates && Waiting(w.updates[u], key) ==> u in w'.updates && Waiting(w'.updates[u], key)
    ensures DeleteToCome(w', key)
  {
    var u :| u in w.updates && Waiting(w.updates[u], key);
    assert u in w'.updates && Waiting(w'.updates[u], key);
  }

  lemma CoverWaits(w: World, key: Key, v: int)
    requires Covered(w, key, v)
    ensures DeleteToCome(w, key)
  {
    var u :| u in w.updates && Covers(w.updates[u], key, v);
    assert Waiting(w.updates[u], key);
  }

  lemma SameUpdates(w: World, w': World, key: Key)
    requires w'.updates == w.updates
    ensures DeleteToCome(w', key) <==> DeleteToCome(w, key)
    ensures forall v :: Covered(w', key, v) <==> Covered(w, key, v)
  {
    if DeleteToCome(w, key) {
      StillWaiting(w, w', key);
    }
    if DeleteToCome(w', key) {
      StillWaiting(w', w, key);
    }
    forall v
      ensures Covered(w', key, v) <==> Covered(w, key, v)
    {
      if Covered(w, key, v) {
        StillCovered(w, w', key, v);
      }
      if Covered(w', key, v) {
        StillCovered(w', w, key, v);
      }
    }
  }

  lemma FillStep(w: World, s: Step, key: Key)
    requires SkuGuarded(w, key) && Enabled(w, s) && key.sku > 0
    requires s.Create? || s.BeginFill? || s.EndFill? || s.Expire? || s.DeleteProduct?
    ensures SkuGuarded(Do(w, s), key)
  {
    var w' := Do(w, s);
    SameUpdates(w, w', key);
    if s.EndFill? && key in w.rows && w.fills[s.f].key == key {
      assert FillGuarded(w, key, w.fills[s.f]);
      if w.fills[s.f].version != w.rows[key] {
        CoverWaits(w, key, w.fills[s.f].version);
      }
    }
    if key in w'.rows {
      forall f | f in w'.fills
        ensures FillGuarded(w', key, w'.fills[f])
      {
        assert key in w.rows && f in w.fills && w'.fills[f] == w.fills[f] ==> FillGuarded(w, key, w.fills[f]);
      }
    }
  }

  lemma UpdateRowStep(w: World, u: int, changed: Key, key: Key)
    requires SkuGuarded(w, key) && u !in w.updates && key.sku > 0
    ensures SkuGuarded(Do(w, UpdateRow(u, changed)), key)
  {
    var w' := Do(w, UpdateRow(u, changed));
    if DeleteToCome(w, key) {
      StillWaiting(w, w', key);
    }
    forall f | f in w.fills && key in w.rows
      ensures FillGuarded(w', key, w.fills[f])
    {
      assert FillGuarded(w, key, w.fills[f]);
      if Covered(w, key, w.fills[f].version) {
        StillCovered(w, w', key, w.fills[f].version);
      }
    }
  }

  lemma UpsertStep(w: World, u: int, key: Key)
    requires Bounded(w) && SkuGuarded(w, key) && In(w, u, RowUpdated) && key.sku > 0
    ensures SkuGuarded(DoUpsert(w, u), key)
  {
    var w' := DoUpsert(w, u);
    if w.updates[u].key == key {
      assert Waiting(w'.updates[u], key);
      forall f | f in w'.fills
        ensures FillGuarded(w', key, w'.fills[f])
      {
        assert Covers(w'.updates[u], key, w.fills[f].version);
      }
    } else {
      OtherKeyMoves(w, w', u, key);
    }
  }

  /** An update of another key moves on. */
  lemma OtherKeyMoves(w: World, w': World, u: int, key: Key)
    requires SkuGuarded(w, key) && u in w.updates && u in w'.updates && w.updates[u].key != key
    requires forall x :: x in w.updates && x != u ==> x in w'.updates && w'.updates[x] == w.updates[x]
    requires w'.fills == w.fills && (key in w.rows <==> key in w'.rows) &&
             (key in w.rows ==> w'.rows[key] == w.rows[key])
    requires (key in w.cache <==> key in w'.cache) && (key in w.cache ==> w'.cache[key] == w.cache[key])
    ensures SkuGuarded(w', key)
  {
    if DeleteToCome(w, key) {
      StillWaiting(w, w', key);
    }
    forall f | f in w.fills && key in w.rows
      ensures FillGuarded(w', key, w.fills[f])
    {
      assert FillGuarded(w, key, w.fills[f]);
      if Covered(w, key, w.fills[f].version) {
        StillCovered(w, w', key, w.fills[f].version);
      }
    }
  }

  lemma FirstDeleteStep(w: World, u: int, key: Key)
    requires SkuGuarded(w, key) && In(w, u, Written) && key.sku > 0
    ensures SkuGuarded(Do(w, Delete(u)), key)
  {
    var w' := Do(w, Delete(u));
    if w.updates[u].key != key {
      OtherKeyMoves(w, w', u, key);
    } else {
      forall f | f in w.fills && key in w.rows
        ensures FillGuarded(w', key, w.fills[f])
      {
        assert FillGuarded(w, key, w.fills[f]);
        if Covered(w, key, w.fills[f].version) {
          StillCovered(w, w', key, w.fills[f].version);
        }
      }
    }
  }

  /** After a delayed delete of this key, what others cover is covered, and nothing else. */
  lemma CoveredAfter(w: World, u: int, key: Key, v: int)
    requires In(w, u, DeletedOnce) && w.updates[u].key == key
    ensures Covered(Do(w, DelayedDelete(u)), key, v) <==> OtherCovers(w, u, key, v)
  {
    var w' := Do(w, DelayedDelete(u));
    if Covered(w', key, v) {
      var x :| x in w'.updates && Covers(w'.updates[x], key, v);
      assert x != u && w'.updates[x] == w.updates[x];
    }
    if OtherCovers(w, u, key, v) {
      var x :| x in w.updates && x != u && Covers(w.updates[x], key, v);
      assert w'.updates[x] == w.updates[x];
    }
  }

  /** A delayed delete keeps the guard if and only if it is careful. */
  lemma DelayedDeleteIff(w: World, u: int, key: Key)
    requires SkuGuarded(w, key) && In(w, u, DeletedOnce) && key.sku > 0 && w.updates[u].key == key
    ensures SkuGuarded(Do(w, DelayedDelete(u)), key) <==> CarefulDelete(w, DelayedDelete(u), key)
  {
    var w' := Do(w, DelayedDelete(u));
    if key in w.rows {
      forall f | f in w.fills
        ensures FillGuarded(w', key, w.fills[f]) <==>
                  (Older(w.fills[f], key, w.updates[u].version) && w.fills[f].version != w.rows[key] ==>
                     OtherCovers(w, u, key, w.fills[f].version))
      {
        assert FillGuarded(w, key, w.fills[f]);
        CoveredAfter(w, u, key, w.fills[f].version);
        CoveredByOlder(w, u, key, w.fills[f].version);
      }
      assert w'.fills == w.fills && CacheGuarded(w', key);
    }
  }

  lemma CoveredByOlder(w: World, u: int, key: Key, v: int)
    requires In(w, u, DeletedOnce)
    ensures Covered(w, key, v) && w.updates[u].version <= v ==> OtherCovers(w, u, key, v)
  {
    if Covered(w, key, v) && w.updates[u].version <= v {
      var x :| x in w.updates && Covers(w.updates[x], key, v);
      assert x != u;
    }
  }

  lemma SkuStep(w: World, s: Step, key: Key)
    requires Bounded(w) && SkuGuarded(w, key) && Enabled(w, s) && key.sku > 0
    ensures SkuGuarded(Do(w, s), key) <==> CarefulDelete(w, s, key)
  {
    match s
    case UpdateRow(u, changed) => UpdateRowStep(w, u, changed, key);
    case UpsertSku(u) => UpsertStep(w, u, key);
    case Delete(u) => FirstDeleteStep(w, u, key);
    case DelayedDelete(u) =>
      if w.updates[u].key == key {
        DelayedDeleteIff(w, u, key);
      } else {
        OtherKeyMoves(w, Do(w, s), u, key);
      }
    case _ => FillStep(w, s, key);
  }

  /** A step leaves something old of a product's own row behind if and only if it writes the row while a
      price of it is held. */
  lemma OwnStep(w: World, s: Step, key: Key)
    requires Bounded(w) && OwnSafe(w, key) && Enabled(w, s) && key.sku == 0
    ensures OwnSafe(Do(w, s), key) <==> CarefulWrite(w, s, key)
  {
    var w' := Do(w, s);
    if s.UpdateRow? && s.key.id == key.id && key in w.rows && !(key in w.cache) && Held(w, key) {
      var f :| f in w.fills && w.fills[f].key == key;
      assert f in w'.fills && w'.fills[f].version < w'.rows[key];
    }
  }

  /** A step keeps the guard of a key if and only if it is careful. */
  lemma CarefulStep(w: World, s: Step, key: Key)
    requires Bounded(w) && Guarded(w, key) && Enabled(w, s) && key.sku >= 0
    ensures Guarded(Do(w, s), key) <==> Careful(w, s, key)
  {
    if key.sku > 0 {
      SkuStep(w, s, key);
    } else {
      OwnStep(w, s, key);
    }
  }
}
