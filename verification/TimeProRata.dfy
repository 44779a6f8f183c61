/** Time-weighted proportional allocation: shares by size and by how long an
    order has rested, redistributed by capping, leftover lots to the front. */
module TimeProRata {
  import opened Sums
  import opened Widths
  import opened Allocation
  import opened Weighted
  import WaterFill

  // --------------------------------------------------------------- weights

  function Pow2(n: nat): (p: nat)
    ensures p > 0
  {
    if n == 0 then 1 else 2 * Pow2(n - 1)
  }

  /** The position of the highest set bit. */
  function Log2(x: nat): nat
    requires x > 0
  {
    if x < 2 then 0 else 1 + Log2(x / 2)
  }

  lemma {:induction false} Log2Brackets(x: nat)
    requires x > 0
    ensures Pow2(Log2(x)) <= x < 2 * Pow2(Log2(x))
  {
    if x >= 2 {
      Log2Brackets(x / 2);
    }
  }

  lemma Doubled(x: nat, y: nat)
    ensures 2 * (x * y) == (2 * x) * y
  {}

  lemma {:induction false} Pow2Splits(a: nat, b: nat)
    ensures Pow2(a + b) == Pow2(a) * Pow2(b)
  {
    if a > 0 {
      Pow2Splits(a - 1, b);
      Doubled(Pow2(a - 1), Pow2(b));
    }
  }

  lemma Pow2Of64()
    ensures Pow2(64) == TWO_64
  {
    Pow2Of16();
    hide Pow2;
    Pow2Splits(16, 16);
    Pow2Splits(32, 32);
  }

  lemma Pow2Of16()
    ensures Pow2(16) == 0x1_0000
  {
    assert Pow2(4) == 16;
    hide Pow2;
    Pow2Splits(4, 4);
    Pow2Splits(8, 8);
  }

  function MaxOf(v: seq<nat>): (m: nat)
    ensures forall i :: 0 <= i < |v| ==> v[i] <= m
    ensures v != [] ==> m in v
    ensures v == [] ==> m == 0
  {
    if v == [] then 0
    else
      var front := MaxOf(v[..|v| - 1]);
      if front > v[|v| - 1] then front else v[|v| - 1]
  }

  /** How ages are read: the resolution, and the age past which patience stops
      paying. */
  datatype Ageing = Ageing(tick: nat, cap: nat) {
    predicate Valid() {
      tick > 0 && 0 < cap < TWO_64
    }

    function Ticks(arrival: nat, now: nat): (t: nat)
      requires Valid()
      ensures 1 <= t <= cap
    {
      var elapsed := (if now >= arrival then now - arrival else 0) / tick;
      if elapsed < 1 then 1 else if elapsed > cap then cap else elapsed
    }

    function Raw(makers: seq<Maker>, now: nat): (raw: seq<nat>)
      requires Valid()
      ensures |raw| == |makers|
      ensures forall i :: 0 <= i < |makers| ==> raw[i] == makers[i].remaining * Ticks(makers[i].arrival, now)
    {
      seq(|makers|, i requires 0 <= i < |makers| => makers[i].remaining * Ticks(makers[i].arrival, now))
    }

    /** By how many bits every weight is scaled down so the largest fits 64. */
    function Shift(makers: seq<Maker>, now: nat): nat
      requires Valid()
    {
      var max := MaxOf(Raw(makers, now));
      if max == 0 || Log2(max) <= 63 then 0 else Log2(max) - 63
    }

    function Weights(makers: seq<Maker>, now: nat): (weights: seq<nat>)
      requires Valid()
      ensures |weights| == |makers|
      ensures forall i :: 0 <= i < |makers| ==> weights[i] > 0
    {
      var raw, scale := Raw(makers, now), Pow2(Shift(makers, now));
      seq(|makers|, i requires 0 <= i < |makers| =>
        if raw[i] / scale >= 1 then raw[i] / scale else 1)
    }
  }

  /** An age counts whole ticks rested: it is at least `k`, for any `k` past the
      first and up to the cap, exactly once `k` ticks have gone by. */
  lemma AgeCountsTicks(ageing: Ageing, arrival: nat, now: nat, k: nat)
    requires ageing.Valid() && 1 <= k <= ageing.cap
    ensures ageing.Ticks(arrival, now) >= k <==> k == 1 || now >= arrival + k * ageing.tick
  {
    var waited := if now >= arrival then now - arrival else 0;
    DivReaches(waited, ageing.tick, k);
    MulStrictlyMonotone(k, 0, ageing.tick);
  }

  /** The age of an order, without dividing: so many ticks have gone by, unless it is
      brand new, and not one more, unless it is past the cap. */
  predicate IsAge(ageing: Ageing, arrival: nat, now: nat, age: nat) {
    && 1 <= age <= ageing.cap
    && (age > 1 ==> now >= arrival + age * ageing.tick)
    && (age < ageing.cap ==> now < arrival + (age + 1) * ageing.tick)
  }

  lemma TicksAreAge(ageing: Ageing, arrival: nat, now: nat)
    requires ageing.Valid()
    ensures IsAge(ageing, arrival, now, ageing.Ticks(arrival, now))
  {
    var age := ageing.Ticks(arrival, now);
    AgeCountsTicks(ageing, arrival, now, age);
    if age < ageing.cap {
      AgeCountsTicks(ageing, arrival, now, age + 1);
    }
  }

  lemma OneAge(ageing: Ageing, arrival: nat, now: nat, age: nat)
    requires ageing.Valid() && IsAge(ageing, arrival, now, age)
    ensures age == ageing.Ticks(arrival, now)
  {
    AgeCountsTicks(ageing, arrival, now, age);
    if age < ageing.cap {
      AgeCountsTicks(ageing, arrival, now, age + 1);
    }
  }

  /** An earlier arrival is at least as old, whatever the clock says. */
  lemma EarlierIsOlder(ageing: Ageing, early: nat, late: nat, now: nat)
    requires ageing.Valid() && early <= late
    ensures ageing.Ticks(early, now) >= ageing.Ticks(late, now)
  {
    var x := if now >= late then now - late else 0;
    var y := if now >= early then now - early else 0;
    DivMonotone(x, y, ageing.tick);
  }

  /** Scaling by a common power of two preserves who outweighs whom. */
  lemma WeightsFollowAge(ageing: Ageing, makers: seq<Maker>, now: nat, i: nat, j: nat)
    requires ageing.Valid() && i < |makers| && j < |makers|
    requires makers[i].remaining == makers[j].remaining && makers[i].arrival <= makers[j].arrival
    ensures ageing.Weights(makers, now)[i] >= ageing.Weights(makers, now)[j]
  {
    var raw := ageing.Raw(makers, now);
    EarlierIsOlder(ageing, makers[i].arrival, makers[j].arrival, now);
    MulMonotone(makers[i].remaining, ageing.Ticks(makers[j].arrival, now), ageing.Ticks(makers[i].arrival, now));
    DivMonotone(raw[j], raw[i], Pow2(ageing.Shift(makers, now)));
  }

  /** Every raw weight fits 128 bits, the scale is a representable shift, and
      every scaled weight fits 64 bits and is never zero. */
  lemma WeightsFit(ageing: Ageing, makers: seq<Maker>, now: nat, i: nat)
    requires ageing.Valid() && i < |makers|
    requires forall k :: 0 <= k < |makers| ==> makers[k].remaining < TWO_64
    ensures ageing.Raw(makers, now)[i] < TWO_128
    ensures Pow2(ageing.Shift(makers, now)) <= TWO_64
    ensures 1 <= ageing.Weights(makers, now)[i] < TWO_64
  {
    var raw, shift := ageing.Raw(makers, now), ageing.Shift(makers, now);
    var max := MaxOf(raw);
    ProductFits(makers[i].remaining, ageing.Ticks(makers[i].arrival, now));
    Pow2Of64();
    if max > 0 {
      var top :| 0 <= top < |raw| && raw[top] == max;
      ProductFits(makers[top].remaining, ageing.Ticks(makers[top].arrival, now));
      ShiftSuffices(max, raw[i], shift);
    }
  }

  lemma ShiftSuffices(max: nat, raw: nat, shift: nat)
    requires 0 < max < TWO_128 && raw <= max
    requires shift == if Log2(max) <= 63 then 0 else Log2(max) - 63
    ensures raw / Pow2(shift) < TWO_64
    ensures Pow2(shift) <= TWO_64
  {
    Log2Brackets(max);
    Pow2Of64();
    if Log2(max) <= 63 {
      Pow2Grows(Log2(max), 63);
    } else {
      Pow2Splits(64, shift);
      assert Pow2(Log2(max) + 1) == 2 * Pow2(Log2(max));
      if shift > 64 {
        Pow2Grows(128, Log2(max));
        Pow2Splits(64, 64);
      } else {
        Pow2Grows(shift, 64);
      }
    }
    DivReaches(raw, Pow2(shift), TWO_64);
  }

  /** Halving `shift` times brings a number below `2` to the 64th exactly from the
      least shift that does. */
  lemma ShiftIsLeast(max: nat, shift: nat, s: nat)
    requires shift == if max == 0 || Log2(max) <= 63 then 0 else Log2(max) - 63
    ensures max < Pow2(64 + s) <==> s >= shift
  {
    if max > 0 {
      Log2Brackets(max);
      if s >= shift {
        Pow2Grows(Log2(max) + 1, 64 + s);
      } else {
        Pow2Grows(64 + s, Log2(max));
      }
    }
  }

  /** Dropping `s` bits brings every one of them into 64. */
  ghost predicate FitLess(raw: seq<nat>, s: nat) {
    forall i :: 0 <= i < |raw| ==> raw[i] < Pow2(64 + s)
  }

  /** The weights, without logarithms or division: size times age, all scaled down by
      the same power of two, the least that brings every one of them into 64 bits, and
      never to nothing. */
  lemma WeightsAreScaled(ageing: Ageing, makers: seq<Maker>, now: nat, ages: seq<nat>, raw: seq<nat>)
    returns (shift: nat)
    requires ageing.Valid() && |ages| == |makers| == |raw|
    requires forall i :: 0 <= i < |makers| ==> IsAge(ageing, makers[i].arrival, now, ages[i])
    requires forall i :: 0 <= i < |makers| ==> raw[i] == makers[i].remaining * ages[i]
    ensures forall s: nat :: FitLess(raw, s) <==> s >= shift
    ensures var weights := ageing.Weights(makers, now);
            forall i :: 0 <= i < |makers| ==>
              if raw[i] < Pow2(shift) then weights[i] == 1
              else weights[i] * Pow2(shift) <= raw[i] < (weights[i] + 1) * Pow2(shift)
  {
    hide Pow2, Log2, MaxOf, IsAge;
    forall i | 0 <= i < |makers|
      ensures raw[i] == ageing.Raw(makers, now)[i]
    {
      OneAge(ageing, makers[i].arrival, now, ages[i]);
    }
    assert raw == ageing.Raw(makers, now);
    shift := ageing.Shift(makers, now);
    forall s: nat
      ensures FitLess(raw, s) <==> s >= shift
    {
      ShiftIsLeast(MaxOf(raw), shift, s);
    }
    forall i | 0 <= i < |makers|
      ensures var w := ageing.Weights(makers, now)[i];
              if raw[i] < Pow2(shift) then w == 1 else w * Pow2(shift) <= raw[i] < (w + 1) * Pow2(shift)
    {
      QuotientBrackets(raw[i], Pow2(shift));
    }
  }

  lemma QuotientBrackets(x: nat, d: nat)
    requires d > 0
    ensures if x < d then x / d < 1 else x / d >= 1 && x / d * d <= x < (x / d + 1) * d
  {
    DivReaches(x, d, 1);
    DivReaches(x, d, x / d);
    DivReaches(x, d, x / d + 1);
  }

  lemma {:induction false} Pow2Grows(a: nat, b: nat)
    requires a <= b
    ensures Pow2(a) <= Pow2(b)
  {
    if a < b {
      Pow2Grows(a, b - 1);
    }
  }

  // ---------------------------------------------------------------- shares

  ghost function LevelOf(ageing: Ageing, available: nat, makers: seq<Maker>, now: nat): (level: WaterFill.Level)
    requires ageing.Valid()
    ensures available < Sum(Sizes(makers)) ==> level.Valid()
  {
    WaterFill.Level(Sizes(makers), ageing.Weights(makers, now), available)
  }

  /** Capped makers hold exactly their size; contenders get their floored share
      of one and the same pool. */
  ghost function Committed(lot: nat, level: WaterFill.Level, capped: set<nat>): (shares: seq<nat>)
    requires lot > 0 && level.Valid() && level.Justified(capped)
    ensures |shares| == |level.sizes|
  {
    seq(|level.sizes|, i requires 0 <= i < |level.sizes| =>
      if i in capped then level.sizes[i]
      else if i in level.Contending(capped) then
        WaterFill.SomeoneContends(level, capped);
        FloorShare(lot, level.available - level.Taken(capped), level.weights[i], level.WeightTotal(capped))
      else 0)
  }

  /** Whole lots the last pass leaves for the crumb sweep. */
  ghost function Leftover(lot: nat, level: WaterFill.Level, capped: set<nat>): nat
    requires lot > 0 && level.Valid() && level.Justified(capped)
  {
    CommittedFits(lot, level, capped);
    LotsLeft(lot, level.available, Sum(Committed(lot, level, capped)))
  }

  ghost function SharesAt(lot: nat, level: WaterFill.Level, capped: set<nat>): (shares: seq<nat>)
    requires lot > 0 && level.Valid() && level.Justified(capped)
    ensures |shares| == |level.sizes|
  {
    Swept(lot, Leftover(lot, level, capped), level.sizes, Committed(lot, level, capped))
  }

  ghost function TimeShares(lot: nat, ageing: Ageing, available: nat, makers: seq<Maker>, now: nat): (shares: seq<nat>)
    requires lot > 0 && ageing.Valid()
    ensures |shares| == |makers|
  {
    if available >= Sum(Sizes(makers)) then Sizes(makers)
    else
      var level := LevelOf(ageing, available, makers, now);
      WaterFill.CappedSettles(level);
      SharesAt(lot, level, WaterFill.Capped(level))
  }

  ghost function TimeProRataFills(lot: nat, ageing: Ageing, available: nat, makers: seq<Maker>, now: nat): seq<Fill>
    requires lot > 0 && ageing.Valid()
  {
    Touched(TimeShares(lot, ageing, available, makers, now))
  }

  /** Committing never spends more than is available, and what it leaves over is
      less than one lot per contender. */
  lemma CommittedFits(lot: nat, level: WaterFill.Level, capped: set<nat>)
    requires lot > 0 && level.Valid() && level.Justified(capped)
    ensures var placed := Sum(Committed(lot, level, capped));
            && placed == level.Taken(capped) + SumAt(Committed(lot, level, capped), level.Contending(capped))
            && placed <= level.available
            && level.available < placed + lot * CountAt(level.Contending(capped), |level.sizes|)
  {
    hide FloorShare, SumAt, CountAt;
    var shares, contending := Committed(lot, level, capped), level.Contending(capped);
    WaterFill.SomeoneContends(level, capped);
    var k :| k in contending;
    FloorsAlmostFill(lot, level.available - level.Taken(capped), level.weights, shares, contending, k);
    SumAtAll(shares, capped + contending);
    SumAtUnion(shares, capped, contending);
    SumAtAgrees(shares, level.sizes, capped);
  }

  /** After the last pass, room for another lot means exactly: still contending. */
  lemma CommittedHeadroom(lot: nat, level: WaterFill.Level, capped: set<nat>, i: nat)
    requires lot > 0 && level.Valid() && level.Settled(capped) && OnGrid(level.sizes, lot)
    requires i < |level.sizes|
    ensures var shares := Committed(lot, level, capped);
            && shares[i] <= level.sizes[i]
            && shares[i] % lot == 0
            && (Headroom(lot, level.sizes, shares, i) <==> i in level.Contending(capped))
  {
    if i in level.Contending(capped) {
      WaterFill.SomeoneContends(level, capped);
      assert i !in level.Overrunning(capped);
      var pool, total := level.available - level.Taken(capped), level.WeightTotal(capped);
      FloorShareHeadroom(lot, pool, level.weights[i], total, level.sizes[i]);
      FloorShareBounds(lot, pool, level.weights[i], total);
    }
  }

  lemma CommittedSound(lot: nat, level: WaterFill.Level, capped: set<nat>)
    requires lot > 0 && level.Valid() && level.Settled(capped) && OnGrid(level.sizes, lot)
    ensures var shares := Committed(lot, level, capped);
            && OnGrid(shares, lot)
            && (forall i :: 0 <= i < |shares| ==> shares[i] <= level.sizes[i])
            && Takers(lot, level.sizes, shares, |shares|) == CountAt(level.Contending(capped), |shares|)
  {
    var shares := Committed(lot, level, capped);
    forall i | 0 <= i < |shares|
      ensures shares[i] <= level.sizes[i] && shares[i] % lot == 0
      ensures Headroom(lot, level.sizes, shares, i) <==> i in level.Contending(capped)
    {
      CommittedHeadroom(lot, level, capped, i);
    }
    TakersAreContenders(lot, level.sizes, shares, level.Contending(capped), |shares|);
  }

  /** One crumb sweep has room for every leftover lot. */
  lemma OneSweepSuffices(lot: nat, level: WaterFill.Level, capped: set<nat>)
    requires lot > 0 && level.Valid() && level.Settled(capped) && OnGrid(level.sizes, lot)
    requires level.available % lot == 0
    ensures var shares, lots := Committed(lot, level, capped), Leftover(lot, level, capped);
            && level.available == Sum(shares) + lot * lots
            && lots <= Takers(lot, level.sizes, shares, |shares|)
  {
    hide FloorShare, SumAt, Takers, CountAt;
    var shares := Committed(lot, level, capped);
    CommittedFits(lot, level, capped);
    CommittedSound(lot, level, capped);
    SumDivisible(shares, lot);
    LeftoverInLots(lot, level.available, Sum(shares), CountAt(level.Contending(capped), |shares|));
  }

  lemma SharesAtSound(lot: nat, level: WaterFill.Level, capped: set<nat>)
    requires lot > 0 && level.Valid() && level.Settled(capped) && OnGrid(level.sizes, lot)
    requires level.available % lot == 0
    ensures var shares := SharesAt(lot, level, capped);
            && Sum(shares) == level.available
            && OnGrid(shares, lot)
            && forall i :: 0 <= i < |shares| ==> shares[i] <= level.sizes[i]
  {
    OneSweepSuffices(lot, level, capped);
    CommittedSound(lot, level, capped);
    SweptPlacesEverything(lot, Leftover(lot, level, capped), level.sizes, Committed(lot, level, capped));
  }

  lemma TimeSharesSound(lot: nat, ageing: Ageing, available: nat, makers: seq<Maker>, now: nat)
    requires lot > 0 && ageing.Valid() && available % lot == 0 && OnGrid(Sizes(makers), lot)
    ensures var shares := TimeShares(lot, ageing, available, makers, now);
            && Sum(shares) == Min(available, Sum(Sizes(makers)))
            && OnGrid(shares, lot)
            && forall i :: 0 <= i < |makers| ==> shares[i] <= makers[i].remaining
  {
    if available < Sum(Sizes(makers)) {
      var level := LevelOf(ageing, available, makers, now);
      WaterFill.CappedSettles(level);
      SharesAtSound(lot, level, WaterFill.Capped(level));
    }
  }

  lemma TimeProRataHonoursContract(lot: nat, ageing: Ageing, available: nat, makers: seq<Maker>, now: nat)
    requires lot > 0 && ageing.Valid() && available % lot == 0 && OnGrid(Sizes(makers), lot)
    ensures Contract(available, makers, TimeProRataFills(lot, ageing, available, makers, now), lot)
  {
    TimeSharesSound(lot, ageing, available, makers, now);
    ContractFromShares(available, makers, TimeShares(lot, ageing, available, makers, now), lot);
  }

  ghost function TimeProRataPolicy(lot: nat, ageing: Ageing): Policy
    requires lot > 0 && ageing.Valid()
  {
    (available: nat, makers: seq<Maker>, now: nat) => TimeProRataFills(lot, ageing, available, makers, now)
  }

  lemma TimeProRataConforms(lot: nat, ageing: Ageing)
    requires lot > 0 && ageing.Valid()
    ensures Conforming(TimeProRataPolicy(lot, ageing), lot)
  {
    forall available: nat, makers: seq<Maker>, now: nat | available % lot == 0 && OnGrid(Sizes(makers), lot)
      ensures Contract(available, makers, TimeProRataFills(lot, ageing, available, makers, now), lot)
    {
      TimeProRataHonoursContract(lot, ageing, available, makers, now);
    }
  }

  /** What each maker is paid at the water-fill point, however it was reached:
      capped makers are filled whole, every contender gets its lot-floored share
      of the remaining pool, and the leftover lots go to the front contenders. */
  lemma TimeProRataPayout(lot: nat, ageing: Ageing, available: nat, makers: seq<Maker>, now: nat,
                          capped: set<nat>, i: nat)
    requires lot > 0 && ageing.Valid() && available % lot == 0 && OnGrid(Sizes(makers), lot)
    requires available < Sum(Sizes(makers)) && i < |makers|
    requires LevelOf(ageing, available, makers, now).Settled(capped)
    ensures var level := LevelOf(ageing, available, makers, now);
            var paid := ShareOf(TimeProRataFills(lot, ageing, available, makers, now), i);
            var lots := Leftover(lot, level, capped);
            && available == Sum(Committed(lot, level, capped)) + lot * lots
            && (i in capped ==> paid == makers[i].remaining)
            && (i in level.Contending(capped) ==>
                  && level.WeightTotal(capped) > 0
                  && paid == FloorShare(lot, available - level.Taken(capped), level.weights[i],
                                        level.WeightTotal(capped)) +
                             (if CountAt(level.Contending(capped), i) < lots then lot else 0))
  {
    var level := LevelOf(ageing, available, makers, now);
    WaterFill.CappedSettles(level);
    WaterFill.SettledIsUnique(level, capped, WaterFill.Capped(level));
    WaterFill.SomeoneContends(level, capped);
    OneSweepSuffices(lot, level, capped);
    TouchedShare(TimeShares(lot, ageing, available, makers, now), i);
    PaidAt(lot, level, capped, i);
  }

  lemma PaidAt(lot: nat, level: WaterFill.Level, capped: set<nat>, i: nat)
    requires lot > 0 && level.Valid() && level.Settled(capped) && OnGrid(level.sizes, lot)
    requires i < |level.sizes|
    ensures SharesAt(lot, level, capped)[i] == Committed(lot, level, capped)[i] +
            (if i in level.Contending(capped) && CountAt(level.Contending(capped), i) < Leftover(lot, level, capped)
             then lot else 0)
  {
    var shares := Committed(lot, level, capped);
    forall j | 0 <= j < |shares|
      ensures Headroom(lot, level.sizes, shares, j) <==> j in level.Contending(capped)
    {
      CommittedHeadroom(lot, level, capped, j);
    }
    TakersAreContenders(lot, level.sizes, shares, level.Contending(capped), i);
    CrumbsGoToTheFront(lot, Leftover(lot, level, capped), level.sizes, shares, i);
  }

  // -------------------------------------------------------------- fairness

  lemma FloorSharesMonotone(lot: nat, pool: nat, x: nat, y: nat, total: nat)
    requires lot > 0 && total > 0 && x <= y
    ensures FloorShare(lot, pool, x, total) <= FloorShare(lot, pool, y, total)
  {
    MulMonotone(pool, x, y);
    DivMonotone(pool * x, pool * y, total);
    DivMonotone(pool * x / total, pool * y / total, lot);
    MulMonotone(lot, pool * x / total / lot, pool * y / total / lot);
  }

  lemma HeavierCapsToo(level: WaterFill.Level, capped: set<nat>, i: nat, j: nat)
    requires level.Valid() && level.Settled(capped)
    requires i < |level.sizes| && j < |level.sizes|
    requires level.sizes[i] == level.sizes[j] && level.weights[i] >= level.weights[j]
    ensures j in capped ==> i in capped
  {
    if j in capped {
      MulMonotone(level.available - level.Taken(capped), level.weights[j], level.weights[i]);
      assert i !in level.Overrunning(capped);
    }
  }

  /** Who carries the larger weight at equal size is capped no later and owed no
      less in the final pass. */
  lemma HeavierCommitsMore(lot: nat, level: WaterFill.Level, capped: set<nat>, i: nat, j: nat)
    requires lot > 0 && level.Valid() && level.Settled(capped)
    requires i < |level.sizes| && j < |level.sizes|
    requires level.sizes[i] == level.sizes[j] && level.weights[i] >= level.weights[j]
    ensures j in capped ==> i in capped
    ensures i !in capped ==> Committed(lot, level, capped)[i] >= Committed(lot, level, capped)[j]
  {
    WaterFill.SomeoneContends(level, capped);
    HeavierCapsToo(level, capped, i, j);
    hide FloorShare;
    FloorSharesMonotone(lot, level.available - level.Taken(capped), level.weights[j], level.weights[i],
                        level.WeightTotal(capped));
  }

  /** Time priority in the sweep: whoever is ahead in the queue and has room is
      offered a lot before anyone behind. */
  lemma {:induction false} LotsOnlyShrink(lot: nat, lots: nat, sizes: seq<nat>, shares: seq<nat>, i: nat, j: nat)
    requires |shares| == |sizes| && i <= j <= |sizes|
    ensures LotsAfter(lot, lots, sizes, shares, j) <= LotsAfter(lot, lots, sizes, shares, i)
  {
    if i < j {
      LotsOnlyShrink(lot, lots, sizes, shares, i, j - 1);
    }
  }

  lemma HeavierGetsMore(lot: nat, level: WaterFill.Level, capped: set<nat>, i: nat, j: nat)
    requires lot > 0 && level.Valid() && level.Settled(capped)
    requires OnGrid(level.sizes, lot) && level.available % lot == 0
    requires i < j < |level.sizes|
    requires level.sizes[i] == level.sizes[j] && level.weights[i] >= level.weights[j]
    ensures SharesAt(lot, level, capped)[i] >= SharesAt(lot, level, capped)[j]
  {
    var shares := Committed(lot, level, capped);
    SharesAtSound(lot, level, capped);
    HeavierCommitsMore(lot, level, capped, i, j);
    LotsOnlyShrink(lot, Leftover(lot, level, capped), level.sizes, shares, i, j);
    CommittedHeadroom(lot, level, capped, i);
    CommittedHeadroom(lot, level, capped, j);
  }

  /** Resting longer never pays less: of two makers of equal size the one ahead
      in the queue, having arrived no later, gets at least as much — through
      capping, scaling, lot floors and the crumb sweep. */
  lemma RestingLongerNeverPaysLess(lot: nat, ageing: Ageing, available: nat, makers: seq<Maker>, now: nat, i: nat,
                                   j: nat)
    requires lot > 0 && ageing.Valid() && available % lot == 0 && OnGrid(Sizes(makers), lot)
    requires i < j < |makers|
    requires makers[i].remaining == makers[j].remaining && makers[i].arrival <= makers[j].arrival
    ensures ShareOf(TimeProRataFills(lot, ageing, available, makers, now), i)
         >= ShareOf(TimeProRataFills(lot, ageing, available, makers, now), j)
  {
    var shares := TimeShares(lot, ageing, available, makers, now);
    TouchedShare(shares, i);
    TouchedShare(shares, j);
    if available < Sum(Sizes(makers)) {
      var level := LevelOf(ageing, available, makers, now);
      WaterFill.CappedSettles(level);
      WeightsFollowAge(ageing, makers, now, i, j);
      HeavierGetsMore(lot, level, WaterFill.Capped(level), i, j);
    }
  }
}
