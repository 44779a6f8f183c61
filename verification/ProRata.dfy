/** Proportional allocation: lot-floored shares by size, leftover lots to the
    front of the queue. */
module ProRata {
  import opened Sums
  import opened Widths
  import opened Allocation
  import opened Weighted
  import opened MachineLevel

  ghost function Live(sizes: seq<nat>): set<nat> {
    set i: nat | i < |sizes| && sizes[i] > 0
  }

  function Floors(lot: nat, available: nat, sizes: seq<nat>): (floors: seq<nat>)
    requires lot > 0 && Sum(sizes) > 0
    ensures |floors| == |sizes|
  {
    seq(|sizes|, i requires 0 <= i < |sizes| => FloorShare(lot, available, sizes[i], Sum(sizes)))
  }

  /** Whole lots the floor pass leaves over. */
  function Leftover(lot: nat, available: nat, sizes: seq<nat>): nat
    requires lot > 0 && available < Sum(sizes)
  {
    FloorsFit(lot, available, sizes);
    LotsLeft(lot, available, Sum(Floors(lot, available, sizes)))
  }

  function ProRataShares(lot: nat, available: nat, sizes: seq<nat>): (shares: seq<nat>)
    requires lot > 0
    ensures |shares| == |sizes|
  {
    if available >= Sum(sizes) then sizes
    else Swept(lot, Leftover(lot, available, sizes), sizes, Floors(lot, available, sizes))
  }

  function ProRataFills(lot: nat, available: nat, makers: seq<Maker>, now: nat): seq<Fill>
    requires lot > 0
  {
    Touched(ProRataShares(lot, available, Sizes(makers)))
  }

  /** The floor pass under-allocates, by less than one lot for every maker that
      holds anything, and stays on the grid. */
  lemma FloorsFit(lot: nat, available: nat, sizes: seq<nat>)
    requires lot > 0 && available < Sum(sizes)
    ensures var floors := Floors(lot, available, sizes);
            && Sum(floors) <= available < Sum(floors) + lot * CountAt(Live(sizes), |sizes|)
            && OnGrid(floors, lot)
  {
    var floors := Floors(lot, available, sizes);
    var live := Live(sizes);
    var k := SomeoneHolds(sizes);
    SumAtAll(sizes, live);
    forall i | 0 <= i < |sizes|
      ensures floors[i] % lot == 0
      ensures i !in live ==> floors[i] == 0
    {
      FloorShareBounds(lot, available, sizes[i], Sum(sizes));
      if sizes[i] == 0 {
        CancelLe(Sum(sizes), floors[i], 0);
      }
    }
    SumAtAll(floors, live);
    FloorsAlmostFill(lot, available, sizes, floors, live, k);
  }

  /** Below the whole level, having room for one more lot and holding anything
      at all are the same thing. */
  lemma HeadroomIsLife(lot: nat, available: nat, sizes: seq<nat>, i: nat)
    requires lot > 0 && OnGrid(sizes, lot) && available < Sum(sizes) && i < |sizes|
    ensures Floors(lot, available, sizes)[i] <= sizes[i]
    ensures Headroom(lot, sizes, Floors(lot, available, sizes), i) <==> i in Live(sizes)
  {
    var total := Sum(sizes);
    if sizes[i] > 0 {
      MulStrictlyMonotone(sizes[i], available, total);
      FloorShareHeadroom(lot, available, sizes[i], total, sizes[i]);
    } else {
      FloorShareBounds(lot, available, sizes[i], total);
      CancelLe(total, FloorShare(lot, available, 0, total), 0);
    }
  }

  /** One sweep has room for every leftover lot. */
  lemma OneSweepSuffices(lot: nat, available: nat, sizes: seq<nat>)
    requires lot > 0 && available % lot == 0 && OnGrid(sizes, lot) && available < Sum(sizes)
    ensures var floors, lots := Floors(lot, available, sizes), Leftover(lot, available, sizes);
            && available == Sum(floors) + lot * lots
            && lots <= Takers(lot, sizes, floors, |sizes|)
  {
    var floors := Floors(lot, available, sizes);
    FloorsFit(lot, available, sizes);
    LiveAreTakers(lot, available, sizes, |sizes|);
    SumDivisible(floors, lot);
    LeftoverInLots(lot, available, Sum(floors), CountAt(Live(sizes), |sizes|));
  }

  lemma LiveAreTakers(lot: nat, available: nat, sizes: seq<nat>, n: nat)
    requires lot > 0 && OnGrid(sizes, lot) && available < Sum(sizes) && n <= |sizes|
    ensures Takers(lot, sizes, Floors(lot, available, sizes), n) == CountAt(Live(sizes), n)
  {
    var floors := Floors(lot, available, sizes);
    forall i | 0 <= i < |sizes|
      ensures Headroom(lot, sizes, floors, i) <==> i in Live(sizes)
    {
      HeadroomIsLife(lot, available, sizes, i);
    }
    TakersAreContenders(lot, sizes, floors, Live(sizes), n);
  }

  lemma ProRataSharesSound(lot: nat, available: nat, sizes: seq<nat>)
    requires lot > 0 && available % lot == 0 && OnGrid(sizes, lot)
    ensures var shares := ProRataShares(lot, available, sizes);
            && Sum(shares) == Min(available, Sum(sizes))
            && OnGrid(shares, lot)
            && forall i :: 0 <= i < |sizes| ==> shares[i] <= sizes[i]
  {
    if available < Sum(sizes) {
      OneSweepSuffices(lot, available, sizes);
      FloorsBelowSizes(lot, available, sizes);
      FloorsFit(lot, available, sizes);
      SweptPlacesEverything(lot, Leftover(lot, available, sizes), sizes, Floors(lot, available, sizes));
    }
  }

  lemma FloorsBelowSizes(lot: nat, available: nat, sizes: seq<nat>)
    requires lot > 0 && OnGrid(sizes, lot) && available < Sum(sizes)
    ensures forall i :: 0 <= i < |sizes| ==> Floors(lot, available, sizes)[i] <= sizes[i]
  {
    forall i | 0 <= i < |sizes|
      ensures Floors(lot, available, sizes)[i] <= sizes[i]
    {
      HeadroomIsLife(lot, available, sizes, i);
    }
  }

  lemma ProRataHonoursContract(lot: nat, available: nat, makers: seq<Maker>, now: nat)
    requires lot > 0 && available % lot == 0 && OnGrid(Sizes(makers), lot)
    ensures Contract(available, makers, ProRataFills(lot, available, makers, now), lot)
  {
    ProRataSharesSound(lot, available, Sizes(makers));
    ContractFromShares(available, makers, ProRataShares(lot, available, Sizes(makers)), lot);
  }

  function ProRataPolicy(lot: nat): Policy
    requires lot > 0
  {
    (available: nat, makers: seq<Maker>, now: nat) =>
      ProRataFills(lot, available, makers, now)
  }

  lemma ProRataConforms(lot: nat)
    requires lot > 0
    ensures Conforming(ProRataPolicy(lot), lot)
  {
    forall available: nat, makers: seq<Maker>, now: nat | available % lot == 0 && OnGrid(Sizes(makers), lot)
      ensures Contract(available, makers, ProRataFills(lot, available, makers, now), lot)
    {
      ProRataHonoursContract(lot, available, makers, now);
    }
  }

  /** What each maker is paid when the level is not swallowed whole: exactly its
      lot-floored proportional share, plus one lot if it is among the first
      makers holding anything, as many of them as there are leftover lots. */
  lemma ProRataPayout(lot: nat, available: nat, makers: seq<Maker>, now: nat, i: nat)
    requires lot > 0 && available % lot == 0 && OnGrid(Sizes(makers), lot)
    requires available < Sum(Sizes(makers)) && i < |makers|
    ensures var sizes := Sizes(makers);
            var floors, lots := Floors(lot, available, sizes), Leftover(lot, available, sizes);
            && available == Sum(floors) + lot * lots
            && ShareOf(ProRataFills(lot, available, makers, now), i) ==
               FloorShare(lot, available, makers[i].remaining, Sum(sizes)) +
               (if makers[i].remaining > 0 && CountAt(Live(sizes), i) < lots then lot else 0)
  {
    var sizes := Sizes(makers);
    OneSweepSuffices(lot, available, sizes);
    TouchedShare(ProRataShares(lot, available, sizes), i);
    CrumbsGoToTheFront(lot, Leftover(lot, available, sizes), sizes, Floors(lot, available, sizes), i);
    HeadroomIsLife(lot, available, sizes, i);
    LiveAreTakers(lot, available, sizes, i);
  }

  datatype ProRataMatcher = ProRataMatcher(lotSize: u64) {
    /** Every intermediate value stays inside the machine type it is computed in,
        and every narrowing back to 64 bits is lossless. */
    method Allocate(available: u64, makers: seq<Maker>, now: u128) returns (fills: seq<Fill>)
      requires lotSize > 0 && available as nat % lotSize as nat == 0
      requires FitsMachine(makers) && OnGrid(Sizes(makers), lotSize as nat)
      ensures fills == ProRataFills(lotSize as nat, available as nat, makers, now as nat)
    {
      ghost var sizes := Sizes(makers);
      ghost var bigLot, bigAvailable := lotSize as nat, available as nat;
      var total := TotalOf(makers);
      if available as u128 >= total {
        fills := CollectWhole(makers);
        return;
      }
      var shares := FloorPass(available, makers, total);
      ghost var floors := Floors(bigLot, bigAvailable, sizes);
      assert Plain(shares) == floors;
      FloorsFit(bigLot, bigAvailable, sizes);
      var placed := SumOf(shares);
      OneSweepSuffices(bigLot, bigAvailable, sizes);
      FloorsBelowSizes(bigLot, bigAvailable, sizes);
      var left;
      shares, left := SweepCrumbs(lotSize, available - placed, Leftover(bigLot, bigAvailable, sizes), makers, shares);
      assert left == 0;
      fills := Collect(shares);
    }

    method FloorPass(available: u64, makers: seq<Maker>, total: u128) returns (shares: seq<u64>)
      requires lotSize > 0 && available as nat % lotSize as nat == 0
      requires FitsMachine(makers) && OnGrid(Sizes(makers), lotSize as nat)
      requires total as nat == Sum(Sizes(makers)) && available as nat < total as nat
      ensures Plain(shares) == Floors(lotSize as nat, available as nat, Sizes(makers))
    {
      ghost var floors := Floors(lotSize as nat, available as nat, Sizes(makers));
      var lot := lotSize as u128;
      shares := [];
      for i := 0 to |makers|
        invariant |shares| == i && forall j :: 0 <= j < i ==> shares[j] as nat == floors[j]
      {
        HeadroomIsLife(lotSize as nat, available as nat, Sizes(makers), i);
        FloorShareBounds(lotSize as nat, available as nat, makers[i].remaining, total as nat);
        var share := LotShare(lot, available as u128, makers[i].remaining as u128, total);
        shares := shares + [share as u64];
      }
    }
  }
}
