/** Token totals of the free-model catalogue, counting each shared pool once. */
module FreeModelCatalog {
  import opened JsText

  datatype FreeType =
    | RecurringDaily | RecurringMonthly | RecurringCredit | RecurringUncapped
    | OneTimeInitial | Keyless | Discontinued

  /** A model's budget. A pool key that is missing or empty leaves the model on its own. */
  datatype Budget = Budget(
    provider: string,
    modelId: string,
    monthlyTokens: nat,
    creditTokens: nat,
    freeType: FreeType,
    poolKey: Option<string>,
    tosAvoid: bool)

  datatype Totals = Totals(
    steadyRecurring: int,
    steadyWithRecurringCredits: int,
    firstMonthRealistic: int,
    modelCount: nat,
    poolCount: nat)

  predicate Pooled(m: Budget) {
    m.poolKey.Some? && m.poolKey.value != ""
  }

  function Max(a: int, b: int): int {
    if a < b then b else a
  }

  // ----- the definition -----

  /** The plain sum. */
  function Sum(ms: seq<Budget>, pick: Budget -> int): int {
    if ms == [] then 0 else pick(ms[0]) + Sum(ms[1..], pick)
  }

  function LooseSum(ms: seq<Budget>, pick: Budget -> int): int {
    if ms == [] then 0 else (if Pooled(ms[0]) then 0 else pick(ms[0])) + LooseSum(ms[1..], pick)
  }

  function Pools(ms: seq<Budget>): set<string> {
    set m | m in ms && Pooled(m) :: m.poolKey.value
  }

  predicate InPool(m: Budget, key: string) {
    Pooled(m) && m.poolKey.value == key
  }

  /** The largest amount in a pool, and at least 0. */
  function PoolMax(ms: seq<Budget>, pick: Budget -> int, key: string): int {
    if ms == [] then 0
    else if InPool(ms[0], key) then Max(pick(ms[0]), PoolMax(ms[1..], pick, key))
    else PoolMax(ms[1..], pick, key)
  }

  ghost function SumOver(keys: set<string>, f: string -> int): int {
    if keys == {} then 0
    else
      var k :| k in keys;
      f(k) + SumOver(keys - {k}, f)
  }

  /** Each pool's maximum once, and every pool-less model. */
  ghost function Deduped(ms: seq<Budget>, pick: Budget -> int): int {
    SumOver(Pools(ms), k => PoolMax(ms, pick, k)) + LooseSum(ms, pick)
  }

  // ----- the loop -----

  /**
   * What the first loop has gathered: `order` holds the keys of `poolMax` in the order they were
   * first set, as a JavaScript Map does.
   */
  ghost predicate Gathered(seen: seq<Budget>, pick: Budget -> int,
                           poolMax: map<string, int>, order: seq<string>, loose: int) {
    && loose == LooseSum(seen, pick)
    && poolMax.Keys == Pools(seen)
    && (forall k :: k in order <==> k in poolMax)
    && (forall k :: k in poolMax ==> poolMax[k] == PoolMax(seen, pick, k))
    && (forall a, b :: 0 <= a < b < |order| ==> order[a] != order[b])
  }

  method DedupedSum(models: seq<Budget>, pick: Budget -> int, keep: Budget -> bool) returns (total: int)
    ensures total == Deduped(Filter(models, keep), pick)
  {
    var poolMax: map<string, int> := map[];
    var order: seq<string> := [];
    var loose := 0;
    for i := 0 to |models|
      invariant Gathered(Filter(models[..i], keep), pick, poolMax, order, loose)
    {
      FilterSnoc(models, i, keep);
      if keep(models[i]) {
        poolMax, order, loose := Gather(models[i], pick, poolMax, order, loose, Filter(models[..i], keep));
      }
    }
    assert models[..|models|] == models;
    total := AddPools(poolMax, order, loose, Filter(models, keep), pick);
  }

  method Gather(m: Budget, pick: Budget -> int, poolMax: map<string, int>, order: seq<string>, loose: int,
                ghost seen: seq<Budget>)
    returns (poolMax': map<string, int>, order': seq<string>, loose': int)
    requires Gathered(seen, pick, poolMax, order, loose)
    ensures Gathered(seen + [m], pick, poolMax', order', loose')
  {
    AddOne(seen, m, pick);
    poolMax', order', loose' := poolMax, order, loose;
    if Pooled(m) {
      var key := m.poolKey.value;
      if key !in poolMax {
        order' := order + [key];
      }
      poolMax' := poolMax[key := Max(if key in poolMax then poolMax[key] else 0, pick(m))];
    } else {
      loose' := loose + pick(m);
    }
  }

  method AddPools(poolMax: map<string, int>, order: seq<string>, loose: int,
                  ghost seen: seq<Budget>, ghost pick: Budget -> int)
    returns (total: int)
    requires Gathered(seen, pick, poolMax, order, loose)
    ensures total == Deduped(seen, pick)
  {
    total := loose;
    ghost var f := k => PoolMax(seen, pick, k);
    ghost var left := Pools(seen);
    for i := 0 to |order|
      invariant forall k :: k in left <==> k in order[i..]
      invariant total + SumOver(left, f) == Deduped(seen, pick)
    {
      var key := order[i];
      assert order[i..] == [key] + order[i + 1..];
      assert key !in order[i + 1..] && poolMax[key] == f(key);
      SumOverRemove(left, f, key);
      left := left - {key};
      total := total + poolMax[key];
    }
  }

  lemma {:induction false} LooseAppend(xs: seq<Budget>, ys: seq<Budget>, pick: Budget -> int)
    ensures LooseSum(xs + ys, pick) == LooseSum(xs, pick) + LooseSum(ys, pick)
  {
    if xs == [] {
      assert xs + ys == ys;
    } else {
      LooseAppend(xs[1..], ys, pick);
      assert (xs + ys)[1..] == xs[1..] + ys;
    }
  }

  lemma AddOne(ms: seq<Budget>, m: Budget, pick: Budget -> int)
    ensures LooseSum(ms + [m], pick) == LooseSum(ms, pick) + if Pooled(m) then 0 else pick(m)
    ensures Pools(ms + [m]) == Pools(ms) + if Pooled(m) then {m.poolKey.value} else {}
    ensures forall k :: PoolMax(ms + [m], pick, k) ==
                        if InPool(m, k) then Max(PoolMax(ms, pick, k), pick(m)) else PoolMax(ms, pick, k)
    ensures forall k :: k !in Pools(ms) ==> PoolMax(ms, pick, k) == 0
  {
    LooseAppend(ms, [m], pick);
    assert [m][1..] == [];
    forall k
      ensures PoolMax(ms + [m], pick, k) ==
              if InPool(m, k) then Max(PoolMax(ms, pick, k), pick(m)) else PoolMax(ms, pick, k)
      ensures k !in Pools(ms) ==> PoolMax(ms, pick, k) == 0
    {
      PoolMaxSnoc(ms, m, pick, k);
      PoolMaxIs(ms, pick, k);
    }
  }

  lemma {:induction false} PoolMaxSnoc(ms: seq<Budget>, m: Budget, pick: Budget -> int, k: string)
    ensures PoolMax(ms + [m], pick, k) ==
            if InPool(m, k) then Max(PoolMax(ms, pick, k), pick(m)) else PoolMax(ms, pick, k)
  {
    if ms == [] {
      assert ms + [m] == [m] && [m][1..] == [];
    } else {
      PoolMaxSnoc(ms[1..], m, pick, k);
      assert (ms + [m])[1..] == ms[1..] + [m];
    }
  }

  lemma {:induction false} SumOverRemove(keys: set<string>, f: string -> int, k: string)
    requires k in keys
    ensures SumOver(keys, f) == f(k) + SumOver(keys - {k}, f)
  {
    var j :| j in keys && SumOver(keys, f) == f(j) + SumOver(keys - {j}, f);
    if j != k {
      SumOverRemove(keys - {j}, f, k);
      SumOverRemove(keys - {k}, f, j);
      assert keys - {j} - {k} == keys - {k} - {j};
    }
  }

  // ----- what the deduplicated sum means -----

  /** PoolMax is an upper bound of 0 and the pool's amounts, and one of them. */
  lemma {:induction false} PoolMaxIs(ms: seq<Budget>, pick: Budget -> int, k: string)
    ensures PoolMax(ms, pick, k) >= 0
    ensures forall m :: m in ms && InPool(m, k) ==> pick(m) <= PoolMax(ms, pick, k)
    ensures PoolMax(ms, pick, k) == 0 || exists m :: m in ms && InPool(m, k) && pick(m) == PoolMax(ms, pick, k)
  {
    if ms != [] {
      PoolMaxIs(ms[1..], pick, k);
    }
  }

  /** A longer list of the same or more members has no smaller maximum. */
  lemma PoolMaxMonotone(xs: seq<Budget>, ys: seq<Budget>, pick: Budget -> int, k: string)
    requires forall m :: m in xs && InPool(m, k) ==> m in ys
    ensures PoolMax(xs, pick, k) <= PoolMax(ys, pick, k)
  {
    PoolMaxIs(xs, pick, k);
    PoolMaxIs(ys, pick, k);
  }

  lemma {:induction false} SumOverMonotone(xs: set<string>, ys: set<string>, f: string -> int, g: string -> int)
    requires xs <= ys
    requires forall k :: k in xs ==> f(k) <= g(k)
    requires forall k :: k in ys ==> 0 <= g(k)
    ensures SumOver(xs, f) <= SumOver(ys, g)
    decreases ys
  {
    if ys != {} {
      var k :| k in ys;
      SumOverRemove(ys, g, k);
      if k in xs {
        SumOverRemove(xs, f, k);
      }
      SumOverMonotone(xs - {k}, ys - {k}, f, g);
      assert k !in xs ==> xs - {k} == xs;
    }
  }

  lemma SumOverSame(keys: set<string>, f: string -> int, g: string -> int)
    requires forall k :: k in keys ==> f(k) == g(k)
    ensures SumOver(keys, f) == SumOver(keys, g)
    decreases keys
  {
    if keys != {} {
      var k :| k in keys;
      SumOverRemove(keys, f, k);
      SumOverRemove(keys, g, k);
      SumOverSame(keys - {k}, f, g);
    }
  }

  /** The order of the catalogue does not matter. */
  lemma DedupedPermutation(xs: seq<Budget>, ys: seq<Budget>, pick: Budget -> int)
    requires multiset(xs) == multiset(ys)
    ensures Deduped(xs, pick) == Deduped(ys, pick)
  {
    LoosePermutation(xs, ys, pick);
    PoolsPermutation(xs, ys);
    assert forall m :: m in xs <==> m in multiset(xs);
    assert forall m :: m in ys <==> m in multiset(ys);
    forall k
      ensures PoolMax(xs, pick, k) == PoolMax(ys, pick, k)
    {
      PoolMaxMonotone(xs, ys, pick, k);
      PoolMaxMonotone(ys, xs, pick, k);
    }
    SumOverSame(Pools(xs), k => PoolMax(xs, pick, k), k => PoolMax(ys, pick, k));
  }

  /** Nor does it for any of the totals. */
  lemma TotalsPermutation(xs: seq<Budget>, ys: seq<Budget>, excludeTosAvoid: bool)
    requires multiset(xs) == multiset(ys)
    ensures TotalsOf(xs, excludeTosAvoid) == TotalsOf(ys, excludeTosAvoid)
  {
    FilterPermutation(xs, ys, Kept(excludeTosAvoid));
    KeptPermutation(Filter(xs, Kept(excludeTosAvoid)), Filter(ys, Kept(excludeTosAvoid)));
  }

  lemma KeptPermutation(xs: seq<Budget>, ys: seq<Budget>)
    requires multiset(xs) == multiset(ys)
    ensures TotalsOfKept(xs) == TotalsOfKept(ys)
  {
    SizePermutation(xs, ys);
    KindPermutation(xs, ys, Recurring, Monthly);
    KindPermutation(xs, ys, RecurringCredits, Credit);
    KindPermutation(xs, ys, OneTimeCredits, Credit);
  }

  lemma SizePermutation<T>(xs: seq<T>, ys: seq<T>)
    requires multiset(xs) == multiset(ys)
    ensures |xs| == |ys|
  {
    assert |xs| == |multiset(xs)| && |ys| == |multiset(ys)|;
  }

  lemma KindPermutation(xs: seq<Budget>, ys: seq<Budget>, kind: Budget -> bool, pick: Budget -> int)
    requires multiset(xs) == multiset(ys)
    ensures Deduped(Filter(xs, kind), pick) == Deduped(Filter(ys, kind), pick)
    ensures Pools(Filter(xs, kind)) == Pools(Filter(ys, kind))
  {
    FilterPermutation(xs, ys, kind);
    DedupedPermutation(Filter(xs, kind), Filter(ys, kind), pick);
    PoolsPermutation(Filter(xs, kind), Filter(ys, kind));
  }

  lemma PoolsPermutation(xs: seq<Budget>, ys: seq<Budget>)
    requires multiset(xs) == multiset(ys)
    ensures Pools(xs) == Pools(ys)
  {
    assert forall m :: m in xs <==> m in multiset(xs);
    assert forall m :: m in ys <==> m in multiset(ys);
  }

  lemma FilterPermutation(xs: seq<Budget>, ys: seq<Budget>, keep: Budget -> bool)
    requires multiset(xs) == multiset(ys)
    ensures multiset(Filter(xs, keep)) == multiset(Filter(ys, keep))
  {
    forall m
      ensures multiset(Filter(xs, keep))[m] == multiset(Filter(ys, keep))[m]
    {
      FilterCount(xs, keep, m);
      FilterCount(ys, keep, m);
    }
  }

  lemma {:induction false} LoosePermutation(xs: seq<Budget>, ys: seq<Budget>, pick: Budget -> int)
    requires multiset(xs) == multiset(ys)
    ensures LooseSum(xs, pick) == LooseSum(ys, pick)
  {
    if xs == [] {
      assert |multiset(ys)| == 0;
    } else {
      assert xs[0] in multiset(ys);
      var i :| 0 <= i < |ys| && ys[i] == xs[0];
      WithoutMultiset(xs, 0);
      WithoutMultiset(ys, i);
      assert Without(xs, 0) == xs[1..];
      LoosePermutation(xs[1..], Without(ys, i), pick);
      LooseWithout(ys, i, pick);
    }
  }

  lemma LooseWithout(ms: seq<Budget>, i: nat, pick: Budget -> int)
    requires i < |ms|
    ensures LooseSum(ms, pick) == LooseSum(Without(ms, i), pick) + if Pooled(ms[i]) then 0 else pick(ms[i])
  {
    assert ms == ms[..i] + ms[i..];
    LooseAppend(ms[..i], ms[i..], pick);
    LooseAppend(ms[..i], ms[i + 1..], pick);
    assert ms[i..][1..] == ms[i + 1..];
  }

  predicate NonNegative(ms: seq<Budget>, pick: Budget -> int) {
    forall m :: m in ms ==> 0 <= pick(m)
  }

  /** Adding a model adds at most its amount, and nothing when its pool already holds as much. */
  lemma AddOneDeduped(ms: seq<Budget>, m: Budget, pick: Budget -> int)
    requires 0 <= pick(m)
    ensures Deduped(ms, pick) <= Deduped(ms + [m], pick) <= Deduped(ms, pick) + pick(m)
    ensures Pooled(m) && pick(m) <= PoolMax(ms, pick, m.poolKey.value) && m.poolKey.value in Pools(ms) ==>
              Deduped(ms + [m], pick) == Deduped(ms, pick)
  {
    AddOne(ms, m, pick);
    var f, g := k => PoolMax(ms, pick, k), k => PoolMax(ms + [m], pick, k);
    if Pooled(m) {
      var key := m.poolKey.value;
      PoolMaxIs(ms, pick, key);
      var others := Pools(ms) - {key};
      assert Pools(ms + [m]) - {key} == others;
      SumOverRemove(Pools(ms + [m]), g, key);
      SumOverSame(others, f, g);
      if key in Pools(ms) {
        SumOverRemove(Pools(ms), f, key);
      } else {
        assert others == Pools(ms);
      }
    } else {
      assert Pools(ms + [m]) == Pools(ms);
      SumOverSame(Pools(ms), f, g);
    }
  }

  /** A member its pool dominates can come or go unnoticed. */
  lemma DominatedMemberIsFree(ms: seq<Budget>, m: Budget, better: Budget, pick: Budget -> int)
    requires Pooled(m) && better in ms && InPool(better, m.poolKey.value)
    requires 0 <= pick(m) <= pick(better)
    ensures Deduped(ms + [m], pick) == Deduped(ms, pick)
  {
    PoolMaxIs(ms, pick, m.poolKey.value);
    AddOneDeduped(ms, m, pick);
  }

  lemma {:induction false} SumSnoc(ms: seq<Budget>, m: Budget, pick: Budget -> int)
    ensures Sum(ms + [m], pick) == Sum(ms, pick) + pick(m)
  {
    if ms == [] {
      assert ms + [m] == [m] && [m][1..] == [];
    } else {
      SumSnoc(ms[1..], m, pick);
      assert (ms + [m])[1..] == ms[1..] + [m];
    }
  }

  /** Counting pools once never counts more than counting every model. */
  lemma {:induction false} DedupedAtMostSum(ms: seq<Budget>, pick: Budget -> int)
    requires NonNegative(ms, pick)
    ensures 0 <= Deduped(ms, pick) <= Sum(ms, pick)
  {
    if ms == [] {
      assert Pools(ms) == {};
    } else {
      var front, last := Init(ms), Last(ms);
      assert front + [last] == ms;
      DedupedAtMostSum(front, pick);
      AddOneDeduped(front, last, pick);
      SumSnoc(front, last, pick);
    }
  }

  /** Leaving models out never raises the sum. */
  lemma {:induction false} FilterNeverRaises(ms: seq<Budget>, keep: Budget -> bool, pick: Budget -> int)
    requires NonNegative(ms, pick)
    ensures Deduped(Filter(ms, keep), pick) <= Deduped(ms, pick)
    ensures forall m :: m in Filter(ms, keep) ==> m in ms
  {
    FilterMembers(ms, keep);
    var few := Filter(ms, keep);
    assert Pools(few) <= Pools(ms);
    forall k
      ensures PoolMax(few, pick, k) <= PoolMax(ms, pick, k) && 0 <= PoolMax(ms, pick, k)
    {
      PoolMaxMonotone(few, ms, pick, k);
      PoolMaxIs(ms, pick, k);
    }
    SumOverMonotone(Pools(few), Pools(ms), k => PoolMax(few, pick, k), k => PoolMax(ms, pick, k));
    LooseFilter(ms, keep, pick);
  }

  lemma {:induction false} LooseFilter(ms: seq<Budget>, keep: Budget -> bool, pick: Budget -> int)
    requires NonNegative(ms, pick)
    ensures LooseSum(Filter(ms, keep), pick) <= LooseSum(ms, pick)
  {
    if ms != [] {
      LooseFilter(ms[1..], keep, pick);
      LooseAppend(if keep(ms[0]) then [ms[0]] else [], Filter(ms[1..], keep), pick);
      assert [ms[0]][1..] == [];
    }
  }

  // ----- the totals -----

  function Kept(excludeTosAvoid: bool): Budget -> bool {
    (m: Budget) => !(excludeTosAvoid && m.tosAvoid)
  }

  predicate Recurring(m: Budget) {
    m.freeType.RecurringDaily? || m.freeType.RecurringMonthly? || m.freeType.Keyless?
  }

  predicate RecurringCredits(m: Budget) {
    m.freeType.RecurringCredit?
  }

  predicate OneTimeCredits(m: Budget) {
    m.freeType.OneTimeInitial?
  }

  function Monthly(m: Budget): int {
    m.monthlyTokens
  }

  function Credit(m: Budget): int {
    m.creditTokens
  }

  ghost function TotalsOf(all: seq<Budget>, excludeTosAvoid: bool): Totals {
    TotalsOfKept(Filter(all, Kept(excludeTosAvoid)))
  }

  ghost function TotalsOfKept(models: seq<Budget>): Totals {
    var steady := Deduped(Filter(models, Recurring), Monthly);
    var withCredits := steady + Deduped(Filter(models, RecurringCredits), Credit);
    Totals(steady, withCredits, withCredits + Deduped(Filter(models, OneTimeCredits), Credit),
           |models|, |Pools(Filter(models, Recurring))|)
  }

  method ComputeTotals(all: seq<Budget>, excludeTosAvoid: bool) returns (totals: Totals)
    ensures totals == TotalsOf(all, excludeTosAvoid)
  {
    var models := Filter(all, Kept(excludeTosAvoid));
    var steady := DedupedSum(models, Monthly, Recurring);
    var recurringCredits := DedupedSum(models, Credit, RecurringCredits);
    var oneTimeCredits := DedupedSum(models, Credit, OneTimeCredits);
    var withCredits := steady + recurringCredits;
    totals := Totals(steady, withCredits, withCredits + oneTimeCredits, |models|,
                     |Pools(Filter(models, Recurring))|);
  }

  /** Steady, steady with credits and first month never decrease along that line. */
  lemma TotalsAreOrdered(all: seq<Budget>, excludeTosAvoid: bool)
    ensures var t := TotalsOf(all, excludeTosAvoid);
            0 <= t.steadyRecurring <= t.steadyWithRecurringCredits <= t.firstMonthRealistic
  {
    var models := Filter(all, Kept(excludeTosAvoid));
    DedupedAtMostSum(Filter(models, Recurring), Monthly);
    DedupedAtMostSum(Filter(models, RecurringCredits), Credit);
    DedupedAtMostSum(Filter(models, OneTimeCredits), Credit);
  }

  /** Dropping the models whose terms advise against them never raises a total or a count. */
  lemma ExcludingNeverRaises(all: seq<Budget>)
    ensures var some, every := TotalsOf(all, true), TotalsOf(all, false);
            && some.steadyRecurring <= every.steadyRecurring
            && some.steadyWithRecurringCredits <= every.steadyWithRecurringCredits
            && some.firstMonthRealistic <= every.firstMonthRealistic
            && some.modelCount <= every.modelCount
            && some.poolCount <= every.poolCount
  {
    KeepAll(all, Kept(false));
    PartNeverRaises(all, Recurring, Monthly);
    PartNeverRaises(all, RecurringCredits, Credit);
    PartNeverRaises(all, OneTimeCredits, Credit);
    FilterSwap(all, Kept(true), Kept(true));
  }

  lemma PartNeverRaises(all: seq<Budget>, kind: Budget -> bool, pick: Budget -> int)
    requires forall m :: 0 <= pick(m)
    ensures Deduped(Filter(Filter(all, Kept(true)), kind), pick) <= Deduped(Filter(all, kind), pick)
    ensures |Pools(Filter(Filter(all, Kept(true)), kind))| <= |Pools(Filter(all, kind))|
  {
    FilterSwap(all, Kept(true), kind);
    FilterNeverRaises(Filter(all, kind), Kept(true), pick);
    SubsetSize(Pools(Filter(Filter(all, kind), Kept(true))), Pools(Filter(all, kind)));
  }

  lemma {:induction false} KeepAll(ms: seq<Budget>, keep: Budget -> bool)
    requires forall m :: keep(m)
    ensures Filter(ms, keep) == ms
  {
    if ms != [] {
      KeepAll(ms[1..], keep);
    }
  }

  lemma {:induction false} SubsetSize(xs: set<string>, ys: set<string>)
    requires xs <= ys
    ensures |xs| <= |ys|
  {
    if xs != {} {
      var x :| x in xs;
      SubsetSize(xs - {x}, ys - {x});
    }
  }

  // ----- model by model -----

  /** The most that the members of a pool, or nobody, already bring. */
  ghost predicate IsBest(ms: seq<Budget>, pick: Budget -> int, key: string, best: int) {
    && 0 <= best && (forall m :: m in ms && m.poolKey == Some(key) ==> pick(m) <= best)
    && (best == 0 || exists m :: m in ms && m.poolKey == Some(key) && pick(m) == best)
  }

  /** The sum, model by model: one without pool key adds its amount, one with a key what it exceeds its pool by. */
  lemma DedupedByModel(ms: seq<Budget>, m: Budget, pick: Budget -> int, best: int)
    ensures Deduped([], pick) == 0
    ensures m.poolKey == None || m.poolKey == Some("") ==> Deduped(ms + [m], pick) == Deduped(ms, pick) + pick(m)
    ensures m.poolKey.Some? && m.poolKey.value != "" && IsBest(ms, pick, m.poolKey.value, best) ==>
              Deduped(ms + [m], pick) == Deduped(ms, pick) + if best < pick(m) then pick(m) - best else 0
  {
    assert Pools([]) == {};
    AddOne(ms, m, pick);
    var f, g := k => PoolMax(ms, pick, k), k => PoolMax(ms + [m], pick, k);
    if !Pooled(m) {
      assert Pools(ms + [m]) == Pools(ms);
      SumOverSame(Pools(ms), f, g);
    } else if IsBest(ms, pick, m.poolKey.value, best) {
      var key := m.poolKey.value;
      BestIsMax(ms, pick, key, best);
      SumOverRemove(Pools(ms + [m]), g, key);
      var others := Pools(ms) - {key};
      assert Pools(ms + [m]) - {key} == others;
      SumOverSame(others, f, g);
      if key in Pools(ms) {
        SumOverRemove(Pools(ms), f, key);
      } else {
        assert others == Pools(ms);
      }
    }
  }

  lemma BestIsMax(ms: seq<Budget>, pick: Budget -> int, key: string, best: int)
    requires key != "" && IsBest(ms, pick, key, best)
    ensures PoolMax(ms, pick, key) == best
  {
    PoolMaxIs(ms, pick, key);
    assert forall m: Budget :: InPool(m, key) <==> m.poolKey == Some(key);
  }

  /** What a catalogue of one model counts for, by the kind of its offer. */
  lemma TotalsOfOne(m: Budget, excludeTosAvoid: bool)
    ensures TotalsOf([m], excludeTosAvoid) ==
            if excludeTosAvoid && m.tosAvoid then Totals(0, 0, 0, 0, 0)
            else
              var pools := if m.poolKey == None || m.poolKey == Some("") then 0 else 1;
              match m.freeType
              case RecurringDaily => Totals(m.monthlyTokens, m.monthlyTokens, m.monthlyTokens, 1, pools)
              case RecurringMonthly => Totals(m.monthlyTokens, m.monthlyTokens, m.monthlyTokens, 1, pools)
              case Keyless => Totals(m.monthlyTokens, m.monthlyTokens, m.monthlyTokens, 1, pools)
              case RecurringCredit => Totals(0, m.creditTokens, m.creditTokens, 1, 0)
              case OneTimeInitial => Totals(0, 0, m.creditTokens, 1, 0)
              case RecurringUncapped => Totals(0, 0, 0, 1, 0)
              case Discontinued => Totals(0, 0, 0, 1, 0)
  {
    FilterOne(m, Kept(excludeTosAvoid));
    FilterOne(m, Recurring);
    FilterOne(m, RecurringCredits);
    FilterOne(m, OneTimeCredits);
    OneDeduped(m, Monthly);
    OneDeduped(m, Credit);
    FilterNone(Recurring);
    FilterNone(RecurringCredits);
    FilterNone(OneTimeCredits);
  }

  lemma FilterOne(m: Budget, keep: Budget -> bool)
    ensures Filter([m], keep) == if keep(m) then [m] else []
  {
    assert [m][1..] == [];
  }

  lemma FilterNone(keep: Budget -> bool)
    ensures Filter([], keep) == []
  {
  }

  lemma OneDeduped(m: Budget, pick: Budget -> int)
    requires 0 <= pick(m)
    ensures Deduped([], pick) == 0 && Deduped([m], pick) == pick(m)
    ensures Pools([]) == {} && |Pools([m])| == if m.poolKey == None || m.poolKey == Some("") then 0 else 1
  {
    DedupedByModel([], m, pick, 0);
    assert [] + [m] == [m];
    if Pooled(m) {
      assert Pools([m]) == {m.poolKey.value};
    } else {
      assert Pools([m]) == {};
    }
  }
}
