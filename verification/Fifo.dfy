/** Price-time priority: the front of the queue is served first, in full. */
module Fifo {
  import opened Sums
  import opened Allocation

  /** What is left for the maker at position `i` once everyone ahead of it has
      been served. */
  function Reaching(available: nat, sizes: seq<nat>, i: nat): nat
    requires i <= |sizes|
  {
    var ahead := Sum(sizes[..i]);
    if available <= ahead then 0 else available - ahead
  }

  function FifoShares(available: nat, sizes: seq<nat>): (shares: seq<nat>)
    ensures |shares| == |sizes|
  {
    seq(|sizes|, i requires 0 <= i < |sizes| => Min(Reaching(available, sizes, i), sizes[i]))
  }

  function FifoFills(available: nat, makers: seq<Maker>, now: nat): seq<Fill> {
    Touched(FifoShares(available, Sizes(makers)))
  }

  datatype FifoMatcher = FifoMatcher {
    method Allocate(available: nat, makers: seq<Maker>, now: nat) returns (fills: seq<Fill>)
      ensures fills == FifoFills(available, makers, now)
    {
      var sizes := Sizes(makers);
      var shares := FifoShares(available, sizes);
      fills := [];
      var left := available;
      var i := 0;
      while i < |makers|
        invariant 0 <= i <= |makers|
        invariant left == Reaching(available, sizes, i)
        invariant fills == Touched(shares[..i])
      {
        if left == 0 {
          NothingLeft(available, sizes, i);
          break;
        }
        TouchedExtends(shares, i);
        SumExtends(sizes, i);
        if makers[i].remaining == 0 {
          i := i + 1;
          continue;
        }
        var quantity := Min(left, makers[i].remaining);
        left := left - quantity;
        fills := fills + [Fill(i, quantity)];
        i := i + 1;
      }
      assert shares[..|makers|] == shares;
    }
  }

  lemma TouchedExtends(shares: seq<nat>, i: nat)
    requires i < |shares|
    ensures Touched(shares[..i + 1]) ==
            if shares[i] > 0 then Touched(shares[..i]) + [Fill(i, shares[i])] else Touched(shares[..i])
  {
    assert shares[..i + 1][..i] == shares[..i];
  }

  /** Once the taker is used up nobody further back is touched. */
  lemma {:induction false} NothingLeft(available: nat, sizes: seq<nat>, i: nat)
    requires i <= |sizes| && Reaching(available, sizes, i) == 0
    ensures Touched(FifoShares(available, sizes)[..i]) == Touched(FifoShares(available, sizes))
    decreases |sizes| - i
  {
    var shares := FifoShares(available, sizes);
    if i < |sizes| {
      TouchedExtends(shares, i);
      SumExtends(sizes, i);
      NothingLeft(available, sizes, i + 1);
    } else {
      assert shares[..i] == shares;
    }
  }

  lemma {:induction false} FifoServed(available: nat, sizes: seq<nat>, n: nat)
    requires n <= |sizes|
    ensures Sum(FifoShares(available, sizes)[..n]) == Min(available, Sum(sizes[..n]))
  {
    if n > 0 {
      FifoServed(available, sizes, n - 1);
      SumExtends(sizes, n - 1);
      SumExtends(FifoShares(available, sizes), n - 1);
    }
  }

  /** The minimum of two lot multiples is a lot multiple, so price-time priority
      keeps the grid without being told where it is. */
  lemma FifoHonoursContract(available: nat, makers: seq<Maker>, now: nat, lot: nat)
    requires lot > 0 && available % lot == 0 && OnGrid(Sizes(makers), lot)
    ensures Contract(available, makers, FifoFills(available, makers, now), lot)
  {
    var sizes := Sizes(makers);
    var shares := FifoShares(available, sizes);
    FifoServed(available, sizes, |sizes|);
    assert shares[..|sizes|] == shares && sizes[..|sizes|] == sizes;
    forall i | 0 <= i < |sizes|
      ensures shares[i] % lot == 0
    {
      ReachingOnGrid(available, sizes, i, lot);
    }
    ContractFromShares(available, makers, shares, lot);
  }

  lemma ReachingOnGrid(available: nat, sizes: seq<nat>, i: nat, lot: nat)
    requires lot > 0 && available % lot == 0 && OnGrid(sizes, lot)
    requires i <= |sizes|
    ensures Reaching(available, sizes, i) % lot == 0
  {
    SumDivisible(sizes[..i], lot);
    if available > Sum(sizes[..i]) {
      SubtractMultiples(available, Sum(sizes[..i]), lot);
    }
  }

  lemma FifoConforms(lot: nat)
    requires lot > 0
    ensures Conforming(FifoFills, lot)
  {
    forall available: nat, makers: seq<Maker>, now: nat | available % lot == 0 && OnGrid(Sizes(makers), lot)
      ensures Contract(available, makers, FifoFills(available, makers, now), lot)
    {
      FifoHonoursContract(available, makers, now, lot);
    }
  }

  /** Strict priority: whoever is served at all has everybody ahead of it served
      in full. */
  lemma FifoPriority(available: nat, makers: seq<Maker>, now: nat, i: nat, j: nat)
    requires i < j < |makers|
    requires ShareOf(FifoFills(available, makers, now), j) > 0
    ensures ShareOf(FifoFills(available, makers, now), i) == makers[i].remaining
  {
    var sizes := Sizes(makers);
    var shares := FifoShares(available, sizes);
    TouchedShare(shares, i);
    TouchedShare(shares, j);
    SumExtends(sizes, i);
    SumMonotonePrefix(sizes, i + 1, j);
  }
}
