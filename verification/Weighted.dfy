/** What flooring proportional shares to whole lots leaves over. */
module Weighted {
  import opened Sums
  import opened Allocation

  function WholeLots(amount: nat, lot: nat): nat
    requires lot > 0
  {
    amount / lot * lot
  }

  /** A weight's proportional share of the pool, floored to whole lots. */
  function FloorShare(lot: nat, pool: nat, weight: nat, weightTotal: nat): nat
    requires lot > 0 && weightTotal > 0
  {
    WholeLots(pool * weight / weightTotal, lot)
  }

  /** The floor keeps the grid and discards strictly less than one lot. */
  lemma FloorShareBounds(lot: nat, pool: nat, weight: nat, weightTotal: nat)
    requires lot > 0 && weightTotal > 0
    ensures var f := FloorShare(lot, pool, weight, weightTotal);
            && f % lot == 0
            && f <= pool * weight / weightTotal
            && weightTotal * f <= pool * weight < weightTotal * (f + lot)
  {
    hide WholeLots;
    var product := pool * weight;
    var exact := product / weightTotal;
    LotFloor(exact, lot);
    FloorBetween(product, weightTotal, exact, WholeLots(exact, lot), lot);
  }

  /** Rounding down to whole lots loses less than a lot. */
  lemma LotFloor(exact: nat, lot: nat)
    requires lot > 0
    ensures var f := WholeLots(exact, lot);
            f % lot == 0 && f <= exact < f + lot
  {
    MultipleModulo(exact / lot, lot);
  }

  lemma FloorBetween(product: nat, total: nat, exact: nat, f: nat, lot: nat)
    requires total > 0 && exact == product / total && f <= exact < f + lot
    ensures total * f <= product < total * (f + lot)
  {
    MulMonotone(total, f, exact);
    MulMonotone(total, exact + 1, f + lot);
    Distribute(total, exact, 1);
  }

  /** What is left of `available` once `placed` of it is given out, in whole lots. */
  function LotsLeft(lot: nat, available: nat, placed: nat): nat
    requires lot > 0 && placed <= available
  {
    (available - placed) / lot
  }

  /** A share that does not overrun its maker leaves it at least one lot of room,
      both being whole lots. */
  lemma FloorShareHeadroom(lot: nat, pool: nat, weight: nat, weightTotal: nat, size: nat)
    requires lot > 0 && weightTotal > 0 && size % lot == 0
    requires pool * weight < size * weightTotal
    ensures FloorShare(lot, pool, weight, weightTotal) + lot <= size
  {
    FloorShareBounds(lot, pool, weight, weightTotal);
    DivReaches(pool * weight, weightTotal, size);
    SubtractMultiples(size, FloorShare(lot, pool, weight, weightTotal), lot);
  }

  /** Over all contenders the floors never exceed the pool, and they miss it by
      less than one lot per contender. */
  lemma FloorsAlmostFill(lot: nat, pool: nat, weights: seq<nat>, floors: seq<nat>, at: set<nat>, k: nat)
    requires lot > 0 && |floors| == |weights|
    requires k in at && k < |weights|
    requires SumAt(weights, at) > 0
    requires forall i :: 0 <= i < |weights| && i in at ==>
               floors[i] == FloorShare(lot, pool, weights[i], SumAt(weights, at))
    ensures SumAt(floors, at) <= pool < SumAt(floors, at) + lot * CountAt(at, |weights|)
  {
    var total := SumAt(weights, at);
    var next := seq(|weights|, i requires 0 <= i < |weights| => floors[i] + lot);
    forall i | 0 <= i < |weights| && i in at
      ensures total * floors[i] <= pool * weights[i] < total * next[i]
    {
      FloorShareBounds(lot, pool, weights[i], total);
    }
    SumAtDominates(floors, weights, at, total, pool);
    SumAtStrictlyDominates(weights, next, at, pool, total, k);
    SumAtShift(floors, next, at, lot);
    CancelLe(total, SumAt(floors, at), pool);
    CancelLt(total, pool, SumAt(next, at));
  }

  lemma {:induction false} TakersAreContenders(lot: nat, sizes: seq<nat>, shares: seq<nat>, at: set<nat>, n: nat)
    requires |shares| == |sizes| && n <= |sizes|
    requires forall i :: 0 <= i < |sizes| ==> (Headroom(lot, sizes, shares, i) <==> i in at)
    ensures Takers(lot, sizes, shares, n) == CountAt(at, n)
  {
    if n > 0 {
      TakersAreContenders(lot, sizes, shares, at, n - 1);
    }
  }

  lemma {:induction false} SomeoneHolds(v: seq<nat>) returns (k: nat)
    requires Sum(v) > 0
    ensures k < |v| && v[k] > 0
  {
    k := |v| - 1;
    if v[k] == 0 {
      k := SomeoneHolds(v[..k]);
    }
  }

  /** A leftover that misses by less than a lot per contender is a whole number
      of lots no larger than the number of contenders. */
  lemma LeftoverInLots(lot: nat, pool: nat, placed: nat, contenders: nat)
    requires lot > 0 && pool % lot == 0 && placed % lot == 0
    requires placed <= pool <= placed + lot * contenders
    ensures pool == placed + lot * ((pool - placed) / lot)
    ensures (pool - placed) / lot <= contenders
  {
    SubtractMultiples(pool, placed, lot);
    Multiple(pool - placed, lot);
    CancelLe(lot, (pool - placed) / lot, contenders);
  }
}
