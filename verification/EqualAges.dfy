/** When everybody has rested equally long: how far time-weighted pro-rata is
    pro-rata, and where scaling the weights makes it something else. */
module EqualAges {
  import opened Sums
  import opened Widths
  import opened Allocation
  import opened Weighted
  import opened TimeProRata
  import WaterFill
  import ProRata

  ghost predicate EquallyOld(ageing: Ageing, makers: seq<Maker>, now: nat, age: nat)
    requires ageing.Valid()
  {
    forall i :: 0 <= i < |makers| ==> ageing.Ticks(makers[i].arrival, now) == age
  }

  /** Scaling the weights down loses no bit that was set. */
  ghost predicate NothingShiftedOut(ageing: Ageing, makers: seq<Maker>, now: nat)
    requires ageing.Valid()
  {
    forall i :: 0 <= i < |makers| ==> ageing.Raw(makers, now)[i] % Pow2(ageing.Shift(makers, now)) == 0
  }

  /** In particular when every size times age fits 64 bits. */
  lemma FittingWeightsShiftNothing(ageing: Ageing, makers: seq<Maker>, now: nat)
    requires ageing.Valid()
    requires forall i :: 0 <= i < |makers| ==> ageing.Raw(makers, now)[i] < TWO_64
    ensures NothingShiftedOut(ageing, makers, now)
  {
    var max := MaxOf(ageing.Raw(makers, now));
    if max > 0 {
      Log2Brackets(max);
      Pow2Of64();
      if Log2(max) >= 64 {
        Pow2Grows(64, Log2(max));
      }
    }
    assert Pow2(ageing.Shift(makers, now)) == 1;
  }

  /** The weights are the sizes, up to one common factor. */
  ghost predicate Proportional(level: WaterFill.Level, age: nat, scale: nat)
    requires level.Valid()
  {
    forall i :: i in level.Live() ==> scale * level.weights[i] == age * level.sizes[i]
  }

  lemma EqualAgesWeighBySize(ageing: Ageing, makers: seq<Maker>, now: nat, age: nat, i: nat)
    requires ageing.Valid() && EquallyOld(ageing, makers, now, age) && NothingShiftedOut(ageing, makers, now)
    requires i < |makers| && makers[i].remaining > 0
    ensures Pow2(ageing.Shift(makers, now)) * ageing.Weights(makers, now)[i] == age * makers[i].remaining
  {
    var raw, scale := ageing.Raw(makers, now)[i], Pow2(ageing.Shift(makers, now));
    MulMonotone(makers[i].remaining, 1, age);
    Multiple(raw, scale);
    AtLeastOne(raw, scale);
    DivReaches(raw, scale, 1);
  }

  lemma TotalsAreProportional(level: WaterFill.Level, age: nat, scale: nat)
    requires level.Valid() && Proportional(level, age, scale)
    ensures scale * level.WeightTotal({}) == age * Sum(level.sizes)
    ensures level.Taken({}) == 0 && level.Contending({}) == level.Live()
  {
    SumAtNothing(level.sizes, {});
    SumAtAll(level.sizes, level.Live());
    assert level.Contending({}) == level.Live();
    var raw := seq(|level.sizes|, i requires 0 <= i < |level.sizes| => age * level.sizes[i]);
    SumAtScales(level.sizes, raw, level.Live(), age);
    SumAtScales(level.weights, raw, level.Live(), scale);
  }

  lemma BelowItsCap(available: nat, size: nat, total: nat, weight: nat, weightTotal: nat, age: nat, scale: nat)
    requires age > 0 && scale > 0 && size > 0 && available < total
    requires scale * weight == age * size && scale * weightTotal == age * total
    ensures available * weight < size * weightTotal
  {
    MulStrictlyMonotone(age, 0, size);
    MulStrictlyMonotone(age * size, available, total);
    Cross(available, scale, weight, age, size);
    Cross(size, scale, weightTotal, age, total);
    assert size * (age * total) == (age * size) * total;
    CancelLt(scale, available * weight, size * weightTotal);
  }

  lemma Cross(x: nat, scale: nat, weight: nat, age: nat, size: nat)
    requires scale * weight == age * size
    ensures scale * (x * weight) == x * (age * size)
  {
    assert scale * (x * weight) == x * (scale * weight);
  }

  lemma NobodyOverruns(level: WaterFill.Level, age: nat, scale: nat)
    requires level.Valid() && age > 0 && scale > 0 && Proportional(level, age, scale)
    ensures level.Justified({}) && level.Overrunning({}) == {}
  {
    WaterFill.NothingCapped(level);
    TotalsAreProportional(level, age, scale);
    forall i | i in level.Live()
      ensures !level.Overruns({}, i)
    {
      BelowItsCap(level.available, level.sizes[i], Sum(level.sizes), level.weights[i], level.WeightTotal({}), age,
                  scale);
    }
  }

  lemma SameFloor(lot: nat, available: nat, size: nat, total: nat, weight: nat, weightTotal: nat, age: nat, scale: nat)
    requires lot > 0 && total > 0 && age > 0 && scale > 0 && weightTotal > 0
    requires scale * weight == age * size && scale * weightTotal == age * total
    ensures FloorShare(lot, available, weight, weightTotal) == FloorShare(lot, available, size, total)
  {
    hide WholeLots;
    DivCancel(available * size, total, age);
    DivCancel(available * weight, weightTotal, scale);
    Cross(available, scale, weight, age, size);
    assert available * (age * size) == age * (available * size);
  }

  lemma SameCommitment(lot: nat, level: WaterFill.Level, age: nat, scale: nat, i: nat)
    requires lot > 0 && level.Valid() && age > 0 && scale > 0 && Proportional(level, age, scale)
    requires i < |level.sizes|
    ensures level.Justified({})
    ensures Committed(lot, level, {})[i] == ProRata.Floors(lot, level.available, level.sizes)[i]
  {
    hide Committed, FloorShare, Sum;
    NobodyOverruns(level, age, scale);
    TotalsAreProportional(level, age, scale);
    CommittedAt(lot, level, {}, i);
    var total := Sum(level.sizes);
    if level.sizes[i] > 0 {
      SameFloor(lot, level.available, level.sizes[i], total, level.weights[i], level.WeightTotal({}), age, scale);
    } else {
      NoWeightNoShare(lot, level.available, total);
    }
  }

  lemma NoWeightNoShare(lot: nat, available: nat, total: nat)
    requires lot > 0 && total > 0
    ensures FloorShare(lot, available, 0, total) == 0
  {
    FloorShareBounds(lot, available, 0, total);
    CancelLe(total, FloorShare(lot, available, 0, total), 0);
  }

  lemma CommittedAt(lot: nat, level: WaterFill.Level, capped: set<nat>, i: nat)
    requires lot > 0 && level.Valid() && level.Justified(capped) && i < |level.sizes|
    ensures level.WeightTotal(capped) > 0
    ensures Committed(lot, level, capped)[i] ==
            if i in level.Contending(capped)
            then FloorShare(lot, level.available - level.Taken(capped), level.weights[i], level.WeightTotal(capped))
            else if i in capped then level.sizes[i] else 0
  {
    WaterFill.SomeoneContends(level, capped);
  }

  lemma SameShares(lot: nat, level: WaterFill.Level)
    requires lot > 0 && level.Valid() && level.Justified({})
    requires Committed(lot, level, {}) == ProRata.Floors(lot, level.available, level.sizes)
    ensures SharesAt(lot, level, {}) == ProRata.ProRataShares(lot, level.available, level.sizes)
  {
    assert Leftover(lot, level, {}) == ProRata.Leftover(lot, level.available, level.sizes);
  }

  lemma EqualAgeShares(lot: nat, level: WaterFill.Level, age: nat, scale: nat)
    requires lot > 0 && level.Valid() && age > 0 && scale > 0 && Proportional(level, age, scale)
    ensures level.Justified(WaterFill.Capped(level))
    ensures SharesAt(lot, level, WaterFill.Capped(level)) == ProRata.ProRataShares(lot, level.available, level.sizes)
  {
    NobodyOverruns(level, age, scale);
    assert WaterFill.Capped(level) == {};
    forall i | 0 <= i < |level.sizes|
      ensures Committed(lot, level, {})[i] == ProRata.Floors(lot, level.available, level.sizes)[i]
    {
      SameCommitment(lot, level, age, scale, i);
    }
    SameShares(lot, level);
  }

  /** When everybody has rested equally long and scaling loses nothing, the policy
      is pro-rata, crumb for crumb. */
  lemma EqualAgesMakeItProRata(lot: nat, ageing: Ageing, available: nat, makers: seq<Maker>, now: nat, age: nat)
    requires lot > 0 && ageing.Valid() && EquallyOld(ageing, makers, now, age)
    requires NothingShiftedOut(ageing, makers, now)
    ensures TimeProRataFills(lot, ageing, available, makers, now) == ProRata.ProRataFills(lot, available, makers, now)
  {
    if available < Sum(Sizes(makers)) {
      var level := LevelOf(ageing, available, makers, now);
      var k := SomeoneHolds(Sizes(makers));
      assert age == ageing.Ticks(makers[k].arrival, now);
      forall i | i in level.Live()
        ensures Pow2(ageing.Shift(makers, now)) * level.weights[i] == age * level.sizes[i]
      {
        EqualAgesWeighBySize(ageing, makers, now, age, i);
      }
      EqualAgeShares(lot, level, age, Pow2(ageing.Shift(makers, now)));
    }
  }

  // --------------------------------------------------- where it stops being so

  const HUGE := Maker(0xFFFF_FFFF_FFFF_FFFF, 0)
  const PAIR := [HUGE, Maker(5, 0)]
  const BY_ONE := Ageing(1, 65535)

  lemma Log2IsExactly(x: nat, n: nat)
    requires Pow2(n) <= x < 2 * Pow2(n)
    ensures x > 0 && Log2(x) == n
  {
    Pow2Grows(0, n);
    Log2Brackets(x);
    if Log2(x) < n {
      Pow2Grows(Log2(x) + 1, n);
    } else if Log2(x) > n {
      Pow2Grows(n + 1, Log2(x));
    }
  }

  lemma PairRaw()
    ensures BY_ONE.Valid() && EquallyOld(BY_ONE, PAIR, 3, 3)
    ensures BY_ONE.Raw(PAIR, 3) == [0x2_FFFF_FFFF_FFFF_FFFD, 15]
    ensures MaxOf([0x2_FFFF_FFFF_FFFF_FFFD, 15]) == 0x2_FFFF_FFFF_FFFF_FFFD
  {
    var raw: seq<nat> := [0x2_FFFF_FFFF_FFFF_FFFD, 15];
    assert raw[0] <= MaxOf(raw) && MaxOf(raw) in raw;
  }

  lemma PairShift()
    ensures BY_ONE.Valid() && BY_ONE.Shift(PAIR, 3) == 2 && Pow2(2) == 4
  {
    PairRaw();
    Pow2Of64();
    assert Pow2(65) == 2 * Pow2(64) && Pow2(2) == 4;
    hide Pow2, Log2;
    Log2IsExactly(0x2_FFFF_FFFF_FFFF_FFFD, 65);
  }

  lemma ThreeTicksOld()
    ensures BY_ONE.Valid() && EquallyOld(BY_ONE, PAIR, 3, 3)
    ensures BY_ONE.Shift(PAIR, 3) == 2
    ensures BY_ONE.Weights(PAIR, 3) == [0xBFFF_FFFF_FFFF_FFFF, 3]
  {
    hide BY_ONE.Shift, BY_ONE.Raw, Pow2;
    PairRaw();
    PairShift();
  }

  /** The same two makers, equally old, paid differently: the second is owed more
      than one whole unit by size, and by the scaled weights less than one. */
  lemma EqualAgesCanDiffer()
    ensures BY_ONE.Valid() && EquallyOld(BY_ONE, PAIR, 3, 3)
    ensures ShareOf(ProRata.ProRataFills(1, 0x4000_0000_0000_0000, PAIR, 3), 1) >= 1
    ensures ShareOf(TimeProRataFills(1, BY_ONE, 0x4000_0000_0000_0000, PAIR, 3), 1) == 0
  {
    hide BY_ONE.Weights, TimeProRataFills, ProRata.ProRataFills, ShareOf;
    ThreeTicksOld();
    PaidBySize();
    PaidByAge();
  }

  lemma PaidBySize()
    ensures ShareOf(ProRata.ProRataFills(1, 0x4000_0000_0000_0000, PAIR, 3), 1) >= 1
  {
    hide ProRata.ProRataFills, ShareOf;
    assert Sizes(PAIR) == [0xFFFF_FFFF_FFFF_FFFF, 5];
    PairSizes();
    ProRata.ProRataPayout(1, 0x4000_0000_0000_0000, PAIR, 3, 1);
  }

  lemma PaidByAge()
    ensures BY_ONE.Valid()
    ensures ShareOf(TimeProRataFills(1, BY_ONE, 0x4000_0000_0000_0000, PAIR, 3), 1) == 0
  {
    hide TimeProRataFills, ShareOf;
    ThreeTicksOld();
    hide BY_ONE.Weights;
    assert Sizes(PAIR) == [0xFFFF_FFFF_FFFF_FFFF, 5];
    PairSizes();
    PairSettles();
    TimeProRataPayout(1, BY_ONE, 0x4000_0000_0000_0000, PAIR, 3, {}, 1);
    PairCrumbs();
  }

  function PairLevel(): WaterFill.Level {
    WaterFill.Level([0xFFFF_FFFF_FFFF_FFFF, 5], [0xBFFF_FFFF_FFFF_FFFF, 3], 0x4000_0000_0000_0000)
  }

  lemma PairSizes()
    ensures Sum([0xFFFF_FFFF_FFFF_FFFF, 5]) == 0x1_0000_0000_0000_0004
    ensures OnGrid([0xFFFF_FFFF_FFFF_FFFF, 5], 1)
  {
    var sizes: seq<nat> := [0xFFFF_FFFF_FFFF_FFFF, 5];
    assert sizes[..1] == [0xFFFF_FFFF_FFFF_FFFF] && sizes[..1][..0] == [];
  }

  lemma PairSettles()
    ensures PairLevel().Valid() && PairLevel().Settled({})
    ensures PairLevel().Taken({}) == 0 && PairLevel().WeightTotal({}) == 0xC000_0000_0000_0002
    ensures PairLevel().Contending({}) == {0, 1}
  {
    var level := PairLevel();
    PairSizes();
    SumAtNothing(level.sizes, {});
    assert level.Contending({}) == {0, 1};
    var contending, front := level.Contending({}), level.weights[..1];
    assert front[..0] == [] && SumAt(front[..0], contending) == 0;
    assert SumAt(front, contending) == 0xBFFF_FFFF_FFFF_FFFF;
    assert SumAt(level.weights, contending) == SumAt(front, contending) + 3;
  }

  lemma PairCrumbs()
    ensures PairLevel().Valid() && PairLevel().Justified({})
    ensures Leftover(1, PairLevel(), {}) <= 1
    ensures CountAt(PairLevel().Contending({}), 1) == 1
  {
    PairSettles();
    CommittedFits(1, PairLevel(), {});
  }
}
