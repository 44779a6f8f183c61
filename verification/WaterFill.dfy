/** The capping loop of the time-weighted policy, seen as a set of capped makers
    that grows until nobody's proportional share overruns what it holds. */
module WaterFill {
  import opened Sums

  /** A level as the loop sees it: sizes, positive weights, and what the taker brings. */
  datatype Level = Level(sizes: seq<nat>, weights: seq<nat>, available: nat) {
    ghost predicate Valid() {
      && |weights| == |sizes|
      && (forall i :: 0 <= i < |weights| ==> weights[i] > 0)
      && available < Sum(sizes)
    }

    /** Makers holding anything. */
    ghost function Live(): set<nat> {
      set i: nat | i < |sizes| && sizes[i] > 0
    }

    ghost function Contending(capped: set<nat>): set<nat> {
      Live() - capped
    }

    /** What the capped makers take off the table. */
    ghost function Taken(capped: set<nat>): nat {
      SumAt(sizes, capped)
    }

    ghost function WeightTotal(capped: set<nat>): nat {
      SumAt(weights, Contending(capped))
    }

    /** The proportional share of `i` reaches what it holds. */
    ghost predicate Overruns(capped: set<nat>, i: nat)
      requires |weights| == |sizes| && i < |sizes| && Taken(capped) <= available
    {
      (available - Taken(capped)) * weights[i] >= sizes[i] * WeightTotal(capped)
    }

    /** A capped set the loop can be at: capping was affordable, and everyone
        capped would still be capped at the present pool and weight total. */
    ghost predicate Justified(capped: set<nat>)
      requires |weights| == |sizes|
    {
      && capped <= Live()
      && Taken(capped) <= available
      && forall i :: i in capped ==> Overruns(capped, i)
    }

    ghost function Overrunning(capped: set<nat>): set<nat>
      requires |weights| == |sizes| && Taken(capped) <= available
    {
      set i | i in Contending(capped) && Overruns(capped, i)
    }

    /** The water-fill point: exactly the capped makers overrun. */
    ghost predicate Settled(capped: set<nat>)
      requires |weights| == |sizes|
    {
      Justified(capped) && Overrunning(capped) == {}
    }
  }

  lemma SomeoneContends(level: Level, capped: set<nat>)
    requires level.Valid() && capped <= level.Live() && level.Taken(capped) <= level.available
    ensures level.Contending(capped) != {}
    ensures level.WeightTotal(capped) > 0
  {
    SumAtAll(level.sizes, level.Live());
    if level.Contending(capped) == {} {
      NobodyLeft(level, capped);
    }
    var k :| k in level.Contending(capped);
    SumAtPositive(level.weights, level.Contending(capped), k);
  }

  lemma NobodyLeft(level: Level, capped: set<nat>)
    requires capped <= level.Live() && level.Contending(capped) == {}
    ensures level.Live() == capped
  {
    forall i | i in level.Live()
      ensures i in capped
    {
      assert i !in level.Contending(capped);
    }
  }

  lemma {:induction false} SumAtPositive(v: seq<nat>, at: set<nat>, k: nat)
    requires k in at && k < |v| && v[k] > 0
    ensures SumAt(v, at) >= v[k]
  {
    if k < |v| - 1 {
      SumAtPositive(v[..|v| - 1], at, k);
    }
  }

  /** Capping any of the overrunning makers is affordable and leaves the pool at
      least as large relative to the remaining weight as it was. */
  lemma CappingRaisesTheRest(level: Level, capped: set<nat>, more: set<nat>)
    requires level.Valid() && level.Justified(capped)
    requires more <= level.Overrunning(capped)
    ensures level.Taken(capped + more) == level.Taken(capped) + level.Taken(more)
    ensures level.WeightTotal(capped) == level.WeightTotal(capped + more) + SumAt(level.weights, more)
    ensures level.Taken(capped + more) <= level.available
    ensures (level.available - level.Taken(capped)) * level.WeightTotal(capped + more)
         <= (level.available - level.Taken(capped + more)) * level.WeightTotal(capped)
  {
    var pool, total := level.available - level.Taken(capped), level.WeightTotal(capped);
    SumAtUnion(level.sizes, capped, more);
    assert level.Contending(capped) == level.Contending(capped + more) + more;
    SumAtUnion(level.weights, level.Contending(capped + more), more);
    SomeoneContends(level, capped);
    SumAtDominates(level.sizes, level.weights, more, total, pool);
    var taken, weight, rest := level.Taken(more), SumAt(level.weights, more), level.WeightTotal(capped + more);
    assert total * taken <= pool * weight;
    PoolShrinks(pool, total, taken, weight, rest);
  }

  lemma PoolShrinks(pool: nat, total: nat, taken: nat, weight: nat, rest: nat)
    requires total > 0 && total == rest + weight
    requires total * taken <= pool * weight
    ensures taken <= pool
    ensures pool * rest <= (pool - taken) * total
  {
    MulMonotone(pool, weight, total);
    CancelLe(total, taken, pool);
    Distribute(pool, rest, weight);
    Distribute(total, pool - taken, taken);
  }

  /** Whoever is over its cap now still is after the redistribution. */
  lemma OverrunPersists(pool: nat, total: nat, pool': nat, total': nat, weight: nat, size: nat)
    requires total > 0
    requires pool * weight >= size * total
    requires pool * total' <= pool' * total
    ensures pool' * weight >= size * total'
  {
    MulMonotone(total', size * total, pool * weight);
    MulMonotone(weight, pool * total', pool' * total);
    assert total' * (pool * weight) == weight * (pool * total');
    assert total' * (size * total) == total * (size * total');
    assert weight * (pool' * total) == total * (pool' * weight);
    CancelLe(total, size * total', pool' * weight);
  }

  /** So any selection of overrunning makers may be capped at once. */
  lemma CappingStaysJustified(level: Level, capped: set<nat>, more: set<nat>)
    requires level.Valid() && level.Justified(capped)
    requires more <= level.Overrunning(capped)
    ensures level.Justified(capped + more)
  {
    CappingRaisesTheRest(level, capped, more);
    SomeoneContends(level, capped);
    forall i | i in capped + more
      ensures level.Overruns(capped + more, i)
    {
      OverrunPersists(level.available - level.Taken(capped), level.WeightTotal(capped),
                      level.available - level.Taken(capped + more), level.WeightTotal(capped + more),
                      level.weights[i], level.sizes[i]);
    }
  }

  lemma NothingCapped(level: Level)
    requires level.Valid()
    ensures level.Justified({})
  {
    SumAtNothing(level.sizes, {});
  }

  /** The loop: cap everyone who overruns, all at once, until nobody does. */
  ghost function Fill(level: Level, capped: set<nat>): set<nat>
    requires level.Valid() && level.Justified(capped)
    decreases level.Live() - capped
  {
    var over := level.Overrunning(capped);
    if over == {} then capped
    else
      CappingStaysJustified(level, capped, over);
      Fill(level, capped + over)
  }

  /** Where the loop ends when it starts with nobody capped. */
  ghost function Capped(level: Level): set<nat>
    requires level.Valid()
  {
    NothingCapped(level);
    Fill(level, {})
  }

  lemma {:induction false} FillSettles(level: Level, capped: set<nat>)
    requires level.Valid() && level.Justified(capped)
    ensures level.Settled(Fill(level, capped))
    decreases level.Live() - capped
  {
    var over := level.Overrunning(capped);
    if over != {} {
      CappingStaysJustified(level, capped, over);
      FillSettles(level, capped + over);
    }
  }

  /** The loop ends at a water-fill point. */
  lemma CappedSettles(level: Level)
    requires level.Valid()
    ensures level.Settled(Capped(level))
  {
    NothingCapped(level);
    FillSettles(level, {});
  }

  /** Passes made before nobody overruns any more. */
  ghost function CappingPasses(level: Level, capped: set<nat>): nat
    requires level.Valid() && level.Justified(capped)
    decreases level.Live() - capped
  {
    var over := level.Overrunning(capped);
    if over == {} then 0
    else
      CappingStaysJustified(level, capped, over);
      1 + CappingPasses(level, capped + over)
  }

  /** Every capping pass removes a contender and one is always left, so with the
      final pass that commits shares the loop runs at most once per live maker. */
  lemma {:induction false} PassesBounded(level: Level, capped: set<nat>)
    requires level.Valid() && level.Justified(capped)
    ensures CappingPasses(level, capped) + 1 <= |level.Contending(capped)|
    decreases level.Live() - capped
  {
    SomeoneContends(level, capped);
    var over := level.Overrunning(capped);
    if over != {} {
      CappingStaysJustified(level, capped, over);
      PassesBounded(level, capped + over);
      assert level.Contending(capped) == level.Contending(capped + over) + over;
      assert |level.Contending(capped)| == |level.Contending(capped + over)| + |over|;
    }
  }

  // ------------------------------------------------------------ uniqueness

  /** Two settled sets agree: no maker is capped in one and free in the other. */
  lemma SettledIsUnique(level: Level, a: set<nat>, b: set<nat>)
    requires level.Valid() && level.Settled(a) && level.Settled(b)
    ensures a == b
  {
    SomeoneContends(level, a);
    SomeoneContends(level, b);
    var poolA, totalA := level.available - level.Taken(a), level.WeightTotal(a);
    var poolB, totalB := level.available - level.Taken(b), level.WeightTotal(b);
    if poolA * totalB <= poolB * totalA {
      LowerLevelCapsFewer(level, a, b);
      SameOrHigher(level, a, b);
    } else {
      LowerLevelCapsFewer(level, b, a);
      SameOrHigher(level, b, a);
    }
  }

  lemma LowerLevelCapsFewer(level: Level, a: set<nat>, b: set<nat>)
    requires level.Valid() && level.Settled(a) && level.Settled(b)
    requires (level.available - level.Taken(a)) * level.WeightTotal(b)
          <= (level.available - level.Taken(b)) * level.WeightTotal(a)
    ensures a <= b
  {
    SomeoneContends(level, a);
    forall i | i in a
      ensures i in b
    {
      OverrunPersists(level.available - level.Taken(a), level.WeightTotal(a),
                      level.available - level.Taken(b), level.WeightTotal(b),
                      level.weights[i], level.sizes[i]);
      assert i !in level.Overrunning(b);
    }
  }

  /** Capping makers that did not overrun lowers the level strictly. */
  lemma SameOrHigher(level: Level, a: set<nat>, b: set<nat>)
    requires level.Valid() && level.Settled(a) && level.Settled(b) && a <= b
    requires (level.available - level.Taken(a)) * level.WeightTotal(b)
          <= (level.available - level.Taken(b)) * level.WeightTotal(a)
    ensures a == b
  {
    var extra := b - a;
    assert a + extra == b;
    if extra != {} {
      var k :| k in extra;
      var pool, total := level.available - level.Taken(a), level.WeightTotal(a);
      SumAtUnion(level.sizes, a, extra);
      assert level.Contending(a) == level.Contending(b) + extra;
      SumAtUnion(level.weights, level.Contending(b), extra);
      forall i | 0 <= i < |level.sizes| && i in extra
        ensures pool * level.weights[i] < total * level.sizes[i]
      {
        assert i in level.Contending(a) && i !in level.Overrunning(a);
      }
      SumAtStrictlyDominates(level.weights, level.sizes, extra, pool, total, k);
      PoolDrops(pool, total, level.Taken(extra), SumAt(level.weights, extra), level.WeightTotal(b));
      assert false;
    }
  }

  lemma PoolDrops(pool: nat, total: nat, taken: nat, weight: nat, rest: nat)
    requires total == rest + weight && taken <= pool
    requires pool * weight < total * taken
    ensures pool * rest > (pool - taken) * total
  {
    Distribute(pool, rest, weight);
    Distribute(total, pool - taken, taken);
  }

  // --------------------------------------------------------- order of capping

  /** A run that caps one overrunning maker at a time, in any order it likes. */
  ghost predicate OneAtATime(level: Level, capped: set<nat>, order: seq<nat>)
    requires level.Valid() && level.Justified(capped)
    decreases |order|
  {
    order != [] ==>
      && order[0] in level.Overrunning(capped)
      && (CappingStaysJustified(level, capped, {order[0]});
          OneAtATime(level, capped + {order[0]}, order[1..]))
  }

  /** Capping one at a time, in whatever order, until nobody overruns ends at
      the very set the batched loop ends at. */
  lemma {:induction false} OrderDoesNotMatter(level: Level, capped: set<nat>, order: seq<nat>)
    requires level.Valid() && level.Justified(capped)
    requires OneAtATime(level, capped, order)
    requires var last := capped + set i | i in order;
             level.Taken(last) <= level.available && level.Overrunning(last) == {}
    ensures capped + (set i | i in order) == Capped(level)
    decreases |order|
  {
    if order == [] {
      assert capped + (set i | i in order) == capped;
      NothingCapped(level);
      FillSettles(level, {});
      SettledIsUnique(level, capped, Capped(level));
    } else {
      CappingStaysJustified(level, capped, {order[0]});
      assert capped + {order[0]} + (set i | i in order[1..]) == capped + (set i | i in order);
      OrderDoesNotMatter(level, capped + {order[0]}, order[1..]);
    }
  }
}
