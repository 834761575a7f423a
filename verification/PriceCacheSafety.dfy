/**
  The careful runs of PriceCacheTiming are exactly the safe ones: every careful future of a guarded key
  stays in agreement, and an unguarded key has a careful future that ends with a stale entry for good.
 */
module PriceCacheSafety {
  import opened PriceCache
  import opened PriceCacheTiming
  import opened Sums

  // ---------------------------------------------------------------- an unguarded key goes stale

  /** Whatever carefully happens from here on, the entry agrees with the row when all is quiet. */
  ghost predicate StaysInAgreement(w: World, key: Key) {
    forall steps: seq<Step> :: IsRun(w, steps) && CarefulRun(w, steps, key) ==> Agrees(After(w, steps), key)
  }

  lemma {:induction false} GuardedStays(w: World, steps: seq<Step>, key: Key)
    requires Bounded(w) && Guarded(w, key) && key.sku >= 0
    requires IsRun(w, steps) && CarefulRun(w, steps, key)
    ensures Agrees(After(w, steps), key)
    decreases |steps|
  {
    if steps == [] {
      GuardedAgrees(w, key);
    } else {
      CarefulStep(w, steps[0], key);
      BoundedKept(w, steps[0]);
      GuardedStays(Do(w, steps[0]), steps[1..], key);
    }
  }

  lemma Prepend(w: World, s: Step, rest: seq<Step>, key: Key) returns (steps: seq<Step>)
    requires Enabled(w, s) && Careful(w, s, key) && IsRun(Do(w, s), rest) && CarefulRun(Do(w, s), rest, key)
    ensures IsRun(w, steps) && CarefulRun(w, steps, key) && After(w, steps) == After(Do(w, s), rest)
  {
    steps := [s] + rest;
    assert steps[1..] == rest;
  }

  /** Fills of this key other than f. */
  function OtherFills(w: World, key: Key, f: int): set<int> {
    set g | g in w.fills && w.fills[g].key == key && g != f
  }

  function Unfinished(w: World, key: Key, phase: Phase): set<int> {
    set u | u in w.updates && w.updates[u] == Update(key, w.updates[u].version, phase)
  }

  /** An uncovered old value: in fill f, or, if there is no such fill, in the cache. */
  ghost predicate Exposed(w: World, key: Key, f: int) {
    && key in w.rows
    && if f in w.fills && w.fills[f].key == key then
         w.fills[f].version != w.rows[key] && (key.sku > 0 ==> !Covered(w, key, w.fills[f].version))
       else
         key in w.cache && w.cache[key] != w.rows[key] && (key.sku > 0 ==> !DeleteToCome(w, key))
  }

  lemma EndOther(w: World, key: Key, f: int, g: int)
    requires Exposed(w, key, f) && g in OtherFills(w, key, f)
    ensures Enabled(w, EndFill(g, false)) && Careful(w, EndFill(g, false), key)
    ensures var w' := Do(w, EndFill(g, false));
            Exposed(w', key, f) && OtherFills(w', key, f) == OtherFills(w, key, f) - {g} && w'.updates == w.updates
  {
    SameUpdates(w, Do(w, EndFill(g, false)), key);
  }

  /** The next delete of a waiting update. */
  function NextDelete(w: World, u: int): Step
    requires u in w.updates
  {
    if w.updates[u].phase.Written? then Delete(u) else DelayedDelete(u)
  }

  lemma FinishSku(w: World, key: Key, f: int, u: int)
    requires Exposed(w, key, f) && OtherFills(w, key, f) == {} && key.sku > 0
    requires u in w.updates && Waiting(w.updates[u], key)
    ensures Careful(w, NextDelete(w, u), key) && Exposed(Do(w, NextDelete(w, u)), key, f)
  {
    var w' := Do(w, NextDelete(w, u));
    assert DeleteToCome(w, key);
    assert f in w.fills && w.fills[f].key == key;
    assert !Covers(w.updates[u], key, w.fills[f].version);
    forall g | g in w.fills && w.fills[g].key == key
      ensures g == f
    {
      assert g != f ==> g in OtherFills(w, key, f);
    }
    forall x | x in w'.updates
      ensures !Covers(w'.updates[x], key, w.fills[f].version)
    {
      assert x in w.updates && !Covers(w.updates[x], key, w.fills[f].version);
    }
  }

  lemma FinishOne(w: World, key: Key, f: int, u: int)
    requires Exposed(w, key, f) && OtherFills(w, key, f) == {} && key.sku >= 0
    requires u in w.updates && Waiting(w.updates[u], key)
    ensures Enabled(w, NextDelete(w, u)) && Careful(w, NextDelete(w, u), key)
    ensures Exposed(Do(w, NextDelete(w, u)), key, f) && OtherFills(Do(w, NextDelete(w, u)), key, f) == {}
  {
    if key.sku > 0 {
      FinishSku(w, key, f, u);
    }
    assert OtherFills(Do(w, NextDelete(w, u)), key, f) == OtherFills(w, key, f);
  }

  lemma MovedOn(w: World, key: Key, u: int)
    requires u in w.updates && Waiting(w.updates[u], key)
    ensures var written, once := Unfinished(w, key, Written), Unfinished(w, key, DeletedOnce);
            if w.updates[u].phase.Written? then
              && u in written
              && Unfinished(Do(w, Delete(u)), key, Written) == written - {u}
              && Unfinished(Do(w, Delete(u)), key, DeletedOnce) == once + {u}
            else
              && u in once
              && Unfinished(Do(w, DelayedDelete(u)), key, Written) == written
              && Unfinished(Do(w, DelayedDelete(u)), key, DeletedOnce) == once - {u}
  {
  }

  /** All that is on its way for the key comes to its end, fill f last: the old value stays. */
  lemma {:induction false} WindDown(w: World, key: Key, f: int) returns (steps: seq<Step>)
    requires Exposed(w, key, f) && key.sku >= 0
    ensures IsRun(w, steps) && CarefulRun(w, steps, key) && !Agrees(After(w, steps), key)
    decreases |OtherFills(w, key, f)|, 2 * |Unfinished(w, key, Written)| + |Unfinished(w, key, DeletedOnce)|
  {
    if OtherFills(w, key, f) != {} {
      var g := SomeElement(OtherFills(w, key, f));
      EndOther(w, key, f, g);
      var rest := WindDown(Do(w, EndFill(g, false)), key, f);
      steps := Prepend(w, EndFill(g, false), rest, key);
    } else if DeleteToCome(w, key) {
      var u :| u in w.updates && Waiting(w.updates[u], key);
      FinishOne(w, key, f, u);
      MovedOn(w, key, u);
      var rest := WindDown(Do(w, NextDelete(w, u)), key, f);
      steps := Prepend(w, NextDelete(w, u), rest, key);
    } else if f in w.fills && w.fills[f].key == key {
      LastFill(w, key, f);
      steps := Prepend(w, EndFill(f, true), [], key);
    } else {
      steps := [];
      NothingComes(w, key, f);
    }
  }

  lemma NothingComes(w: World, key: Key, f: int)
    requires Exposed(w, key, f) && OtherFills(w, key, f) == {} && !DeleteToCome(w, key)
    requires !(f in w.fills && w.fills[f].key == key)
    ensures !Agrees(w, key)
  {
    forall g | g in w.fills
      ensures w.fills[g].key != key
    {
      assert g !in OtherFills(w, key, f);
    }
    forall u | u in w.updates
      ensures !Waiting(w.updates[u], key)
    {
    }
  }

  lemma LastFill(w: World, key: Key, f: int)
    requires Exposed(w, key, f) && OtherFills(w, key, f) == {} && !DeleteToCome(w, key)
    requires f in w.fills && w.fills[f].key == key
    ensures !Agrees(Do(w, EndFill(f, true)), key)
  {
    var w' := Do(w, EndFill(f, true));
    forall g | g in w'.fills
      ensures w'.fills[g].key != key
    {
      assert g !in OtherFills(w, key, f);
    }
    forall u | u in w.updates
      ensures !Waiting(w.updates[u], key)
    {
    }
  }

  lemma UnguardedExposed(w: World, key: Key) returns (f: int)
    requires !Guarded(w, key)
    ensures Exposed(w, key, f)
  {
    if key.sku > 0 {
      f := UnguardedSku(w, key);
    } else if exists g :: g in w.fills && w.fills[g].key == key && w.fills[g].version != w.rows[key] {
      f :| f in w.fills && w.fills[f].key == key && w.fills[f].version != w.rows[key];
    } else {
      f := FreshFill(w);
    }
  }

  lemma UnguardedSku(w: World, key: Key) returns (f: int)
    requires !SkuGuarded(w, key) && key.sku > 0
    ensures Exposed(w, key, f)
  {
    if exists g :: g in w.fills && !FillGuarded(w, key, w.fills[g]) {
      f :| f in w.fills && !FillGuarded(w, key, w.fills[f]);
    } else {
      f := FreshFill(w);
    }
  }

  /** A number that no fill has. */
  lemma FreshFill(w: World) returns (f: int)
    ensures f !in w.fills
  {
    f := Fresh(w.fills.Keys);
  }

  lemma {:induction false} Fresh(taken: set<int>) returns (f: int)
    ensures f !in taken && forall x :: x in taken ==> x < f
    decreases |taken|
  {
    if taken == {} {
      f := 0;
    } else {
      var x := SomeElement(taken);
      var g := Fresh(taken - {x});
      f := if x >= g then x + 1 else g;
      assert forall y :: y in taken ==> y == x || y in taken - {x};
    }
  }

  /** The guard is exact: from this state every careful future keeps the entry in agreement if and only if
      whatever is old of a SKU will still be deleted, and nothing is old of a product's own row. */
  lemma GuardedIff(w: World, key: Key)
    requires Bounded(w) && key.sku >= 0
    ensures StaysInAgreement(w, key) <==> Guarded(w, key)
  {
    if Guarded(w, key) {
      forall steps: seq<Step> | IsRun(w, steps) && CarefulRun(w, steps, key)
        ensures Agrees(After(w, steps), key)
      {
        GuardedStays(w, steps, key);
      }
    } else {
      var f := UnguardedExposed(w, key);
      var steps := WindDown(w, key, f);
    }
  }

  // ---------------------------------------------------------------- every run

  /** At every state of the run the entry is safe from staying stale. */
  ghost predicate SafeAlong(w: World, steps: seq<Step>, key: Key)
    requires IsRun(w, steps)
    decreases |steps|
  {
    StaysInAgreement(w, key) && (steps != [] ==> SafeAlong(Do(w, steps[0]), steps[1..], key))
  }

  lemma {:induction false} SafeAlongIff(w: World, steps: seq<Step>, key: Key)
    requires Bounded(w) && Guarded(w, key) && IsRun(w, steps) && key.sku >= 0
    ensures SafeAlong(w, steps, key) <==> CarefulRun(w, steps, key)
    decreases |steps|
  {
    GuardedIff(w, key);
    if steps == [] {
    } else {
      CarefulStep(w, steps[0], key);
      BoundedKept(w, steps[0]);
      if Guarded(Do(w, steps[0]), key) {
        SafeAlongIff(Do(w, steps[0]), steps[1..], key);
      } else {
        GuardedIff(Do(w, steps[0]), key);
      }
    }
  }

  /** SAFETY FROM STALENESS. A run keeps the entry of a live row safe from staying stale, all along, if and
      only if every step of it is careful. For a SKU that is about delayed deletes: each fill still on its
      way with a value older than that update has the delayed delete of another, newer update to come. For
      a product's own row it is about updates of the product or any of its SKUs: none comes while a price
      of the own row is cached or on its way. */
  lemma {:induction false} SafeIff(steps: seq<Step>, key: Key)
    requires IsRun(Empty(), steps) && key.sku >= 0
    ensures SafeAlong(Empty(), steps, key) <==> CarefulRun(Empty(), steps, key)
  {
    SafeAlongIff(Empty(), steps, key);
  }

  lemma {:induction false} SafeAtEnd(w: World, steps: seq<Step>, key: Key)
    requires IsRun(w, steps) && SafeAlong(w, steps, key)
    ensures Agrees(After(w, steps), key)
    decreases |steps|
  {
    if steps == [] {
      assert IsRun(w, []) && CarefulRun(w, [], key) && After(w, []) == w;
    } else {
      SafeAtEnd(Do(w, steps[0]), steps[1..], key);
    }
  }

  /** Cache agreement: in every run whose fills end before the delayed deletes of later updates, whenever
      nothing is on its way for a live SKU, its cache entry is absent or equal to the row, however fills,
      updates, failed sets and expiries interleave. */
  lemma {:induction false} CacheAgrees(steps: seq<Step>, key: Key)
    requires IsRun(Empty(), steps) && Timely(Empty(), steps) && key.sku > 0
    ensures var w := After(Empty(), steps);
            Quiet(w, key) && key in w.rows && key in w.cache ==> w.cache[key] == w.rows[key]
  {
    TimelyIsCareful(Empty(), steps, key);
    SafeIff(steps, key);
    SafeAtEnd(Empty(), steps, key);
  }

  /** A product is created and its price read into the cache; then it is updated. Nothing is on its way any
      more, no delete came late, and the entry is stale for good. */
  lemma OwnRowStaysStale(id: int) returns (steps: seq<Step>)
    ensures IsRun(Empty(), steps) && !CarefulRun(Empty(), steps, Key(id, 0))
    ensures var w := After(Empty(), steps); var key := Key(id, 0);
            Quiet(w, key) && key in w.rows && key in w.cache && w.cache[key] != w.rows[key]
  {
    var key := Key(id, 0);
    RunAppend(Empty(), [], Create(0, key));
    steps := [] + [Create(0, key)];
    RunAppend(Empty(), steps, BeginFill(0, key));
    steps := steps + [BeginFill(0, key)];
    RunAppend(Empty(), steps, EndFill(0, true));
    steps := steps + [EndFill(0, true)];
    assert After(Empty(), steps) == World(map[key := 1], map[key := 1], 1, map[], map[]);
    RunAppend(Empty(), steps, UpdateRow(0, key));
    steps := steps + [UpdateRow(0, key)];
    RunAppend(Empty(), steps, UpsertSku(0));
    steps := steps + [UpsertSku(0)];
    RunAppend(Empty(), steps, Delete(0));
    steps := steps + [Delete(0)];
    RunAppend(Empty(), steps, DelayedDelete(0));
    steps := steps + [DelayedDelete(0)];
    if CarefulRun(Empty(), steps, key) {
      GuardedStays(Empty(), steps, key);
      assert false;
    }
  }
}
