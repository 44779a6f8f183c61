/** The time-weighted allocator as it runs: 64-bit shares, 128-bit pool, and the
    capping loop over them. */
module TimeProRataLoop {
  import opened Sums
  import opened Widths
  import opened Allocation
  import opened Weighted
  import opened MachineLevel
  import opened TimeProRata
  import WaterFill

  /** Shares are their own bookkeeping: capped makers hold exactly their
      remaining, everybody else nothing yet. */
  ghost predicate Mirrors(shares: seq<u64>, sizes: seq<nat>, capped: set<nat>) {
    && |shares| == |sizes|
    && forall i :: 0 <= i < |sizes| ==> shares[i] as nat == if i in capped then sizes[i] else 0
  }

  /** The 128-bit weights as numbers. */
  ghost function Wide(weights: seq<u128>): (w: seq<nat>)
    ensures |w| == |weights|
    ensures forall i :: 0 <= i < |weights| ==> w[i] == weights[i] as nat
  {
    seq(|weights|, i requires 0 <= i < |weights| => weights[i] as nat)
  }

  ghost predicate FitsLoop(level: WaterFill.Level) {
    && level.Valid()
    && |level.sizes| < TWO_64 && level.available < TWO_64
    && forall i :: 0 <= i < |level.sizes| ==> level.sizes[i] < TWO_64 && level.weights[i] < TWO_64
  }

  lemma {:induction false} PrefixSumAtFits(v: seq<nat>, at: set<nat>, n: nat)
    requires n <= |v| && forall i :: 0 <= i < |v| ==> v[i] < TWO_64
    ensures SumAt(v[..n], at) <= n * 0xFFFF_FFFF_FFFF_FFFF
  {
    if n > 0 {
      PrefixSumAtFits(v, at, n - 1);
      SumAtExtends(v, at, n - 1);
    }
  }

  lemma SumAtExtends(v: seq<nat>, at: set<nat>, n: nat)
    requires n < |v|
    ensures SumAt(v[..n + 1], at) == SumAt(v[..n], at) + (if n in at then v[n] else 0)
  {
    assert v[..n + 1][..n] == v[..n];
  }

  lemma StillContending(level: WaterFill.Level, shares: seq<u64>, capped: set<nat>, i: nat)
    requires Mirrors(shares, level.sizes, capped) && i < |level.sizes|
    ensures shares[i] as nat < level.sizes[i] <==> i in level.Contending(capped)
  {}

  method WeightInPlay(ghost level: WaterFill.Level, ghost capped: set<nat>,
                      makers: seq<Maker>, weights: seq<u128>, shares: seq<u64>)
    returns (total: u128)
    requires FitsLoop(level) && Mirrors(shares, level.sizes, capped)
    requires level.sizes == Sizes(makers) && level.weights == Wide(weights)
    ensures total as nat == level.WeightTotal(capped)
  {
    ghost var contending := level.Contending(capped);
    total := 0;
    for i := 0 to |weights|
      invariant total as nat == SumAt(level.weights[..i], contending)
    {
      PrefixSumAtFits(level.weights, contending, i + 1);
      SumAtExtends(level.weights, contending, i);
      if shares[i] as nat < makers[i].remaining {
        total := total + weights[i];
      }
    }
    assert level.weights[..|weights|] == level.weights;
  }

  /** One capping pass: everybody who overruns, judged against one and the same
      pool and weight total. */
  method CapPass(ghost level: WaterFill.Level, ghost capped: set<nat>, pool: u128, weightTotal: u128,
                 makers: seq<Maker>, weights: seq<u128>, start: seq<u64>)
    returns (shares: seq<u64>, taken: u128)
    requires FitsLoop(level) && level.Justified(capped) && Mirrors(start, level.sizes, capped)
    requires level.sizes == Sizes(makers) && level.weights == Wide(weights)
    requires pool as nat == level.available - level.Taken(capped)
    requires weightTotal as nat == level.WeightTotal(capped) && weightTotal > 0
    ensures Mirrors(shares, level.sizes, capped + level.Overrunning(capped))
    ensures taken as nat == level.Taken(level.Overrunning(capped))
  {
    ghost var over := level.Overrunning(capped);
    shares := start;
    taken := 0;
    for i := 0 to |weights|
      invariant |shares| == |start|
      invariant forall j :: 0 <= j < i ==> shares[j] as nat == if j in capped + over then level.sizes[j] else 0
      invariant forall j :: i <= j < |shares| ==> shares[j] == start[j]
      invariant taken as nat == SumAt(level.sizes[..i], over)
    {
      PrefixSumAtFits(level.sizes, over, i + 1);
      SumAtExtends(level.sizes, over, i);
      if shares[i] as nat < makers[i].remaining {
        var overruns := Reaches(pool, weights[i], weightTotal, makers[i].remaining as u128);
        if overruns {
          shares := shares[i := makers[i].remaining as u64];
          taken := taken + makers[i].remaining as u128;
        }
      }
    }
    assert level.sizes[..|weights|] == level.sizes;
  }

  /** The final pass: lot-floored shares for whoever is still contending. */
  method CommitPass(ghost level: WaterFill.Level, ghost capped: set<nat>, lot: u128, pool: u128, weightTotal: u128,
                    makers: seq<Maker>, weights: seq<u128>, start: seq<u64>)
    returns (shares: seq<u64>, committed: u128)
    requires FitsLoop(level) && level.Justified(capped) && Mirrors(start, level.sizes, capped) && lot > 0
    requires level.Overrunning(capped) == {}
    requires level.sizes == Sizes(makers) && level.weights == Wide(weights)
    requires pool as nat == level.available - level.Taken(capped)
    requires weightTotal as nat == level.WeightTotal(capped) && weightTotal > 0
    ensures Plain(shares) == Committed(lot as nat, level, capped)
    ensures committed as nat == SumAt(Plain(shares), level.Contending(capped))
  {
    ghost var final, contending := Committed(lot as nat, level, capped), level.Contending(capped);
    FinalPayouts(lot as nat, level, capped, start, makers, pool as nat, weightTotal as nat);
    shares, committed := PayContenders(final, contending, lot, pool, weightTotal, makers, weights, start);
  }

  /** What each maker ends up with, and who is still to be paid. */
  ghost predicate Payouts(final: seq<nat>, contending: set<nat>, start: seq<u64>, makers: seq<Maker>,
                          weights: seq<nat>, lot: nat, pool: nat, total: nat)
    requires lot > 0 && total > 0
  {
    && |final| == |makers| == |weights| == |start| < TWO_64
    && forall i :: 0 <= i < |final| ==>
         && (start[i] as nat < makers[i].remaining <==> i in contending)
         && weights[i] < TWO_64 && final[i] < TWO_64
         && final[i] == if i in contending then FloorShare(lot, pool, weights[i], total) else start[i] as nat
  }

  method PayContenders(ghost final: seq<nat>, ghost contending: set<nat>, lot: u128, pool: u128, weightTotal: u128,
                       makers: seq<Maker>, weights: seq<u128>, start: seq<u64>)
    returns (shares: seq<u64>, committed: u128)
    requires lot > 0 && weightTotal > 0 && pool as nat < TWO_64
    requires Payouts(final, contending, start, makers, Wide(weights), lot as nat, pool as nat, weightTotal as nat)
    ensures Plain(shares) == final
    ensures committed as nat == SumAt(final, contending)
  {
    hide FloorShare;
    shares := start;
    committed := 0;
    for i := 0 to |weights|
      invariant |shares| == |start|
      invariant forall j :: 0 <= j < i ==> shares[j] as nat == final[j]
      invariant forall j :: i <= j < |shares| ==> shares[j] == start[j]
      invariant committed as nat == SumAt(final[..i], contending)
    {
      SumAtExtends(final, contending, i);
      PrefixSumAtFits(final, contending, i + 1);
      if shares[i] as nat < makers[i].remaining {
        var share := LotShare(lot, pool, weights[i], weightTotal);
        shares := shares[i := share as u64];
        committed := committed + share;
      }
    }
    assert final[..|weights|] == final;
    assert Plain(shares) == final;
  }

  lemma FinalPayouts(lot: nat, level: WaterFill.Level, capped: set<nat>, start: seq<u64>, makers: seq<Maker>,
                     pool: nat, total: nat)
    requires lot > 0 && FitsLoop(level) && level.Justified(capped) && level.Overrunning(capped) == {}
    requires Mirrors(start, level.sizes, capped) && level.sizes == Sizes(makers)
    requires pool == level.available - level.Taken(capped) && total == level.WeightTotal(capped) > 0
    ensures Payouts(Committed(lot, level, capped), level.Contending(capped), start, makers, level.weights, lot, pool,
                    total)
  {
    hide FloorShare;
    forall i | 0 <= i < |level.sizes|
      ensures start[i] as nat < level.sizes[i] <==> i in level.Contending(capped)
      ensures var final := Committed(lot, level, capped)[i];
              && final < TWO_64
              && final == if i in level.Contending(capped) then FloorShare(lot, pool, level.weights[i], total)
                          else start[i] as nat
    {
      StillContending(level, start, capped, i);
      FinalShare(lot, level, capped, i, pool, level.weights[i], total);
    }
  }

  lemma FinalShare(lot: nat, level: WaterFill.Level, capped: set<nat>, i: nat, pool: nat, weight: nat, total: nat)
    requires lot > 0 && FitsLoop(level) && level.Justified(capped) && level.Overrunning(capped) == {}
    requires i < |level.sizes| && weight == level.weights[i]
    requires pool == level.available - level.Taken(capped) && total == level.WeightTotal(capped) > 0
    ensures var final := Committed(lot, level, capped)[i];
            && final < TWO_64
            && (i in level.Contending(capped) ==> final == FloorShare(lot, pool, weight, total))
            && (i !in level.Contending(capped) ==> final == if i in capped then level.sizes[i] else 0)
  {
    hide FloorShare;
    if i in level.Contending(capped) {
      ContenderFits(lot, level, capped, i);
    }
  }

  lemma ContenderFits(lot: nat, level: WaterFill.Level, capped: set<nat>, i: nat)
    requires lot > 0 && level.Valid() && level.Justified(capped) && level.Overrunning(capped) == {}
    requires i in level.Contending(capped) && level.WeightTotal(capped) > 0
    ensures FloorShare(lot, level.available - level.Taken(capped), level.weights[i], level.WeightTotal(capped))
            < level.sizes[i]
  {
    assert i !in level.Overrunning(capped);
    var pool, total := level.available - level.Taken(capped), level.WeightTotal(capped);
    FloorShareBounds(lot, pool, level.weights[i], total);
    DivReaches(pool * level.weights[i], total, level.sizes[i]);
  }

  datatype TimeProRataMatcher = TimeProRataMatcher(lotSize: u64, tick: u128, maxAgeTicks: u128) {
    predicate Valid() {
      lotSize > 0 && tick > 0 && 0 < maxAgeTicks as nat < TWO_64
    }

    function Clock(): (ageing: Ageing)
      requires Valid()
      ensures ageing.Valid()
    {
      Ageing(tick as nat, maxAgeTicks as nat)
    }

    /** How long a maker has rested, in ticks, between one and the cap. */
    method AgeTicks(arrival: u128, now: u128) returns (age: u128)
      requires Valid()
      ensures age as nat == Clock().Ticks(arrival as nat, now as nat)
      ensures 1 <= age <= maxAgeTicks
      ensures age > 1 ==> now as nat >= arrival as nat + age as nat * tick as nat
      ensures age < maxAgeTicks ==> now as nat < arrival as nat + (age as nat + 1) * tick as nat
    {
      TicksAreAge(Clock(), arrival as nat, now as nat);
      var waited := if now >= arrival then now - arrival else 0;
      var elapsed := Quotient(waited, tick);
      age := if elapsed < 1 then 1 else if elapsed > maxAgeTicks then maxAgeTicks else elapsed;
    }

    /** Size times age: two 64-bit factors. */
    method RawWeight(maker: Maker, now: u128) returns (raw: u128)
      requires Valid() && maker.remaining < TWO_64 && maker.arrival < TWO_128
      ensures raw as nat == maker.remaining * Clock().Ticks(maker.arrival, now as nat)
    {
      var age := AgeTicks(maker.arrival as u128, now);
      ProductFits(maker.remaining, age as nat);
      raw := maker.remaining as u128 * age;
    }

    method LargestRaw(makers: seq<Maker>, now: u128) returns (max: u128)
      requires Valid() && FitsMachine(makers)
      ensures max as nat == MaxOf(Clock().Raw(makers, now as nat))
    {
      ghost var raws := Clock().Raw(makers, now as nat);
      max := 0;
      for i := 0 to |makers|
        invariant max as nat == MaxOf(raws[..i])
      {
        assert raws[..i + 1][..i] == raws[..i];
        var raw := RawWeight(makers[i], now);
        if raw > max {
          max := raw;
        }
      }
      assert raws[..|makers|] == raws;
    }

    /** The weights, scaled down by one power of two so that each fits 64 bits. */
    method Weights(makers: seq<Maker>, now: u128) returns (weights: seq<u128>)
      requires Valid() && FitsMachine(makers)
      ensures Wide(weights) == Clock().Weights(makers, now as nat)
      ensures forall i :: 0 <= i < |weights| ==> weights[i] as nat < TWO_64
    {
      hide Pow2, Log2, MaxOf;
      ghost var scaled := Clock().Weights(makers, now as nat);
      var max := LargestRaw(makers, now);
      var bits := 0;
      if max > 0 {
        bits := Ilog2(max);
      }
      var shift := if bits > 63 then bits - 63 else 0;
      weights := [];
      for i := 0 to |makers|
        invariant |weights| == i && forall j :: 0 <= j < i ==> weights[j] as nat == scaled[j] < TWO_64
      {
        WeightsFit(Clock(), makers, now as nat, i);
        var raw := RawWeight(makers[i], now);
        var down := ShiftRight(raw, shift);
        weights := weights + [if down >= 1 then down else 1];
      }
    }

    /** Every intermediate value stays inside the machine type it is computed in,
        and every narrowing back to 64 bits is lossless. */
    method Allocate(available: u64, makers: seq<Maker>, now: u128) returns (fills: seq<Fill>)
      requires Valid() && available as nat % lotSize as nat == 0
      requires FitsMachine(makers) && OnGrid(Sizes(makers), lotSize as nat)
      ensures fills == TimeProRataFills(lotSize as nat, Clock(), available as nat, makers, now as nat)
    {
      hide FloorShare, Swept, Takers, Touched, SumAt, Pow2;
      var total := TotalOf(makers);
      if available as u128 >= total {
        fills := CollectWhole(makers);
        return;
      }
      var weights := Weights(makers, now);
      ghost var level := LevelOf(Clock(), available as nat, makers, now as nat);
      var shares, left;
      ghost var passes;
      shares, left, passes := WaterFillLoop(level, makers, weights, available);
      ghost var capped := WaterFill.Capped(level);
      OneSweepSuffices(lotSize as nat, level, capped);
      CommittedSound(lotSize as nat, level, capped);
      var crumbs;
      shares, crumbs := SweepCrumbs(lotSize, left as u64, Leftover(lotSize as nat, level, capped), makers, shares);
      assert crumbs == 0;
      fills := Collect(shares);
    }

    /** The capping loop. It stops within one pass per live maker, at the
        water-fill point, with everything spoken for but the crumbs. */
    method WaterFillLoop(ghost level: WaterFill.Level, makers: seq<Maker>, weights: seq<u128>, available: u64)
      returns (shares: seq<u64>, left: u128, ghost passes: nat)
      requires Valid() && FitsLoop(level)
      requires level.sizes == Sizes(makers) && level.weights == Wide(weights) && level.available == available as nat
      ensures level.Settled(WaterFill.Capped(level))
      ensures Plain(shares) == Committed(lotSize as nat, level, WaterFill.Capped(level))
      ensures left as nat == available as nat - Sum(Plain(shares))
      ensures 1 <= passes <= |level.Live()|
    {
      WaterFill.NothingCapped(level);
      WaterFill.PassesBounded(level, {});
      assert level.Contending({}) == level.Live();
      SumAtNothing(level.sizes, {});
      ghost var capped: set<nat> := {};
      passes := 0;
      shares := seq(|makers|, _ => 0);
      left := available as u128;
      while true
        invariant level.Justified(capped) && Mirrors(shares, level.sizes, capped)
        invariant left as nat == level.available - level.Taken(capped)
        invariant WaterFill.Fill(level, capped) == WaterFill.Capped(level)
        invariant passes + WaterFill.CappingPasses(level, capped) == WaterFill.CappingPasses(level, {})
        decreases level.Contending(capped)
      {
        passes := passes + 1;
        var weightTotal := WeightInPlay(level, capped, makers, weights, shares);
        if weightTotal == 0 {
          WaterFill.SomeoneContends(level, capped);
          assert false;
        }
        var taken;
        shares, taken := CapPass(level, capped, left, weightTotal, makers, weights, shares);
        ghost var over := level.Overrunning(capped);
        NothingTaken(level, over);
        if taken > 0 {
          WaterFill.CappingStaysJustified(level, capped, over);
          WaterFill.CappingRaisesTheRest(level, capped, over);
          left, capped := left - taken, capped + over;
          continue;
        }
        assert capped + over == capped;
        WaterFill.CappedSettles(level);
        CommittedFits(lotSize as nat, level, capped);
        var committed: u128;
        shares, committed := CommitPass(level, capped, lotSize as u128, left, weightTotal, makers, weights, shares);
        left := left - committed;
        break;
      }
    }
  }

  /** The position of the highest set bit, found by halving. */
  method Ilog2(x: u128) returns (bits: u128)
    requires x > 0
    ensures bits as nat == Log2(x as nat)
  {
    bits := 0;
    var rest := x;
    while rest >= 2
      invariant rest > 0 && bits as nat + Log2(rest as nat) == Log2(x as nat) && bits as nat + rest as nat <= x as nat
      decreases rest
    {
      rest, bits := rest / 2, bits + 1;
    }
  }

  /** Shifting right is dividing by the power of two. */
  method ShiftRight(x: u128, shift: u128) returns (r: u128)
    ensures r as nat == x as nat / Pow2(shift as nat)
  {
    r := x;
    for i := 0 to shift
      invariant r as nat == x as nat / Pow2(i as nat)
    {
      HalvedAgain(x as nat, Pow2(i as nat));
      r := r / 2;
    }
  }

  lemma HalvedAgain(x: nat, scale: nat)
    requires scale > 0
    ensures x / scale / 2 == x / (2 * scale)
  {
    DivReaches(x, scale, 2 * (x / scale / 2));
    DivReaches(x, scale, 2 * (x / scale / 2) + 2);
    DivUnique(x, 2 * scale, x / scale / 2);
  }

  lemma NothingTaken(level: WaterFill.Level, over: set<nat>)
    requires over <= level.Live()
    ensures level.Taken(over) == 0 <==> over == {}
  {
    if k :| k in over {
      WaterFill.SumAtPositive(level.sizes, over, k);
    } else {
      SumAtNothing(level.sizes, over);
    }
  }
}
