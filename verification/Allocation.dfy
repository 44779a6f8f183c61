/** The contract every allocation policy owes the matching engine, and the two
    pieces the weighted policies share: the crumb sweep and the sparse result. */
module Allocation {
  import opened Sums

  /** One resting order as a policy sees it. */
  datatype Maker = Maker(remaining: nat, arrival: nat)

  /** One resting order's share of an incoming taker, by position in the queue. */
  datatype Fill = Fill(index: nat, quantity: nat)

  /** A policy is a pure function of what is available, the queue (oldest first)
      and the instant ages are measured against. */
  type Policy = (nat, seq<Maker>, nat) -> seq<Fill>

  function Sizes(makers: seq<Maker>): (sizes: seq<nat>)
    ensures |sizes| == |makers|
    ensures forall i :: 0 <= i < |makers| ==> sizes[i] == makers[i].remaining
  {
    seq(|makers|, i requires 0 <= i < |makers| => makers[i].remaining)
  }

  function Quantities(fills: seq<Fill>): (q: seq<nat>)
    ensures |q| == |fills|
    ensures forall i :: 0 <= i < |fills| ==> q[i] == fills[i].quantity
  {
    seq(|fills|, i requires 0 <= i < |fills| => fills[i].quantity)
  }

  ghost predicate OnGrid(sizes: seq<nat>, lot: nat)
    requires lot > 0
  {
    forall i :: 0 <= i < |sizes| ==> sizes[i] % lot == 0
  }

  ghost predicate Increasing(fills: seq<Fill>) {
    forall i, j :: 0 <= i < j < |fills| ==> fills[i].index < fills[j].index
  }

  /** The five clauses: positions increase and are in range, no fill is empty,
      none exceeds its maker, together they are exactly what can be traded, and
      each is a whole number of lots. */
  ghost predicate Contract(available: nat, makers: seq<Maker>, fills: seq<Fill>, lot: nat)
    requires lot > 0
  {
    && Increasing(fills)
    && (forall k :: 0 <= k < |fills| ==>
          && fills[k].index < |makers|
          && 0 < fills[k].quantity <= makers[fills[k].index].remaining
          && fills[k].quantity % lot == 0)
    && Sum(Quantities(fills)) == Min(available, Sum(Sizes(makers)))
  }

  ghost predicate Conforming(policy: Policy, lot: nat)
    requires lot > 0
  {
    forall available: nat, makers: seq<Maker>, now: nat ::
      available % lot == 0 && OnGrid(Sizes(makers), lot) ==>
        Contract(available, makers, policy(available, makers, now), lot)
  }

  // ---------------------------------------------------------------- shares

  /** What the fills give the maker at position `i`; a maker that is absent gets
      nothing. */
  function ShareOf(fills: seq<Fill>, i: nat): nat {
    if fills == [] then 0
    else if fills[|fills| - 1].index == i then fills[|fills| - 1].quantity
    else ShareOf(fills[..|fills| - 1], i)
  }

  /** Every maker's share, present or absent. */
  function Shares(fills: seq<Fill>, n: nat): (shares: seq<nat>)
    ensures |shares| == n
    ensures forall i :: 0 <= i < n ==> shares[i] == ShareOf(fills, i)
  {
    seq(n, i requires 0 <= i < n => ShareOf(fills, i))
  }

  /** The result form: only makers that were touched appear. */
  function Touched(shares: seq<nat>): seq<Fill> {
    if shares == [] then []
    else
      var n := |shares| - 1;
      var front := Touched(shares[..n]);
      if shares[n] > 0 then front + [Fill(n, shares[n])] else front
  }

  lemma {:induction false} ShareOfPresent(fills: seq<Fill>, k: nat)
    requires Increasing(fills) && k < |fills|
    ensures ShareOf(fills, fills[k].index) == fills[k].quantity
  {
    var n := |fills| - 1;
    if k < n {
      ShareOfPresent(fills[..n], k);
    }
  }

  lemma {:induction false} ShareOfAbsent(fills: seq<Fill>, i: nat)
    requires forall k :: 0 <= k < |fills| ==> fills[k].index != i
    ensures ShareOf(fills, i) == 0
  {
    if fills != [] {
      ShareOfAbsent(fills[..|fills| - 1], i);
    }
  }

  /** Either a maker was touched, with exactly its share, or its share is zero. */
  lemma ShareOfCases(fills: seq<Fill>, i: nat)
    requires Increasing(fills)
    ensures ShareOf(fills, i) > 0 ==> exists k :: 0 <= k < |fills| && fills[k] == Fill(i, ShareOf(fills, i))
  {
    if k :| 0 <= k < |fills| && fills[k].index == i {
      ShareOfPresent(fills, k);
    } else {
      ShareOfAbsent(fills, i);
    }
  }

  lemma SharesFit(available: nat, makers: seq<Maker>, fills: seq<Fill>, lot: nat)
    requires lot > 0 && Contract(available, makers, fills, lot)
    ensures forall i :: 0 <= i < |makers| ==>
              ShareOf(fills, i) <= makers[i].remaining && ShareOf(fills, i) % lot == 0
  {
    forall i | 0 <= i < |makers|
      ensures ShareOf(fills, i) <= makers[i].remaining && ShareOf(fills, i) % lot == 0
    {
      ShareOfCases(fills, i);
    }
  }

  /** Nothing is lost between the fills and the shares they stand for. */
  lemma {:induction false} SharesConserve(fills: seq<Fill>, n: nat)
    requires Increasing(fills)
    requires forall k :: 0 <= k < |fills| ==> fills[k].index < n
    ensures Sum(Shares(fills, n)) == Sum(Quantities(fills))
    decreases n
  {
    if n == 0 {
      assert fills == [];
    } else {
      var m := |fills| - 1;
      var shares := Shares(fills, n);
      if fills != [] && fills[m].index == n - 1 {
        SharesConserve(fills[..m], n - 1);
        assert Quantities(fills)[..m] == Quantities(fills[..m]);
        assert shares[..n - 1] == Shares(fills[..m], n - 1);
      } else {
        if fills != [] {
          assert fills[m].index < n - 1;
        }
        SharesConserve(fills, n - 1);
        ShareOfAbsent(fills, n - 1);
        assert shares[..n - 1] == Shares(fills, n - 1);
      }
    }
  }

  lemma {:induction false} TouchedEntries(shares: seq<nat>)
    ensures forall k :: 0 <= k < |Touched(shares)| ==>
              var f := Touched(shares)[k];
              f.index < |shares| && f.quantity == shares[f.index] > 0
  {
    if shares != [] {
      var n := |shares| - 1;
      TouchedEntries(shares[..n]);
      assert forall j :: 0 <= j < n ==> shares[..n][j] == shares[j];
    }
  }

  lemma {:induction false} TouchedIncreases(shares: seq<nat>)
    ensures Increasing(Touched(shares))
  {
    if shares != [] {
      TouchedEntries(shares[..|shares| - 1]);
      TouchedIncreases(shares[..|shares| - 1]);
    }
  }

  lemma {:induction false} TouchedSum(shares: seq<nat>)
    ensures Sum(Quantities(Touched(shares))) == Sum(shares)
  {
    if shares != [] {
      var n := |shares| - 1;
      TouchedSum(shares[..n]);
      if shares[n] > 0 {
        var fills := Touched(shares);
        assert Quantities(fills)[..|fills| - 1] == Quantities(Touched(shares[..n]));
      }
    }
  }

  lemma {:induction false} TouchedShare(shares: seq<nat>, i: nat)
    requires i < |shares|
    ensures ShareOf(Touched(shares), i) == shares[i]
  {
    var n := |shares| - 1;
    var front := Touched(shares[..n]);
    if shares[n] > 0 {
      assert Touched(shares)[..|front|] == front;
    }
    if i < n {
      TouchedShare(shares[..n], i);
    } else if shares[n] == 0 {
      TouchedEntries(shares[..n]);
      ShareOfAbsent(front, n);
    }
  }

  /** The sparse form and the dense form carry the same information. */
  lemma TouchedIsFaithful(shares: seq<nat>)
    ensures Shares(Touched(shares), |shares|) == shares
  {
    forall i | 0 <= i < |shares|
      ensures ShareOf(Touched(shares), i) == shares[i]
    {
      TouchedShare(shares, i);
    }
  }

  /** Dense shares that fit their makers, sit on the grid and add up make fills
      that honour the contract. */
  lemma ContractFromShares(available: nat, makers: seq<Maker>, shares: seq<nat>, lot: nat)
    requires lot > 0 && |shares| == |makers|
    requires forall i :: 0 <= i < |makers| ==> shares[i] <= makers[i].remaining && shares[i] % lot == 0
    requires Sum(shares) == Min(available, Sum(Sizes(makers)))
    ensures Contract(available, makers, Touched(shares), lot)
  {
    TouchedEntries(shares);
    TouchedIncreases(shares);
    TouchedSum(shares);
    hide Touched, Increasing;
  }

  // ----------------------------------------------------------- crumb sweep

  predicate Headroom(lot: nat, sizes: seq<nat>, shares: seq<nat>, i: nat)
    requires |shares| == |sizes| && i < |sizes|
  {
    sizes[i] - shares[i] >= lot
  }

  /** How many of the `lots` leftover lots are still to be placed once the first
      `n` makers have been offered one each, front of the queue first. */
  function LotsAfter(lot: nat, lots: nat, sizes: seq<nat>, shares: seq<nat>, n: nat): nat
    requires |shares| == |sizes| && n <= |sizes|
  {
    if n == 0 then lots
    else
      var before := LotsAfter(lot, lots, sizes, shares, n - 1);
      if before > 0 && Headroom(lot, sizes, shares, n - 1) then before - 1 else before
  }

  predicate GetsCrumb(lot: nat, lots: nat, sizes: seq<nat>, shares: seq<nat>, i: nat)
    requires |shares| == |sizes| && i < |sizes|
  {
    LotsAfter(lot, lots, sizes, shares, i) > 0 && Headroom(lot, sizes, shares, i)
  }

  function Swept(lot: nat, lots: nat, sizes: seq<nat>, shares: seq<nat>): (r: seq<nat>)
    requires |shares| == |sizes|
    ensures |r| == |shares|
  {
    seq(|shares|, i requires 0 <= i < |shares| =>
      if GetsCrumb(lot, lots, sizes, shares, i) then shares[i] + lot else shares[i])
  }

  /** How many of the first `n` makers can take another lot. */
  ghost function Takers(lot: nat, sizes: seq<nat>, shares: seq<nat>, n: nat): nat
    requires |shares| == |sizes| && n <= |sizes|
  {
    if n == 0 then 0
    else Takers(lot, sizes, shares, n - 1) + (if Headroom(lot, sizes, shares, n - 1) then 1 else 0)
  }

  lemma {:induction false} LotsAfterClosedForm(lot: nat, lots: nat, sizes: seq<nat>, shares: seq<nat>, n: nat)
    requires |shares| == |sizes| && n <= |sizes|
    ensures LotsAfter(lot, lots, sizes, shares, n) == lots - Min(lots, Takers(lot, sizes, shares, n))
  {
    if n > 0 {
      LotsAfterClosedForm(lot, lots, sizes, shares, n - 1);
    }
  }

  /** Who the sweep favours: exactly the first `lots` makers with room. */
  lemma CrumbsGoToTheFront(lot: nat, lots: nat, sizes: seq<nat>, shares: seq<nat>, i: nat)
    requires |shares| == |sizes| && i < |sizes|
    ensures GetsCrumb(lot, lots, sizes, shares, i) <==>
            Headroom(lot, sizes, shares, i) && Takers(lot, sizes, shares, i) < lots
  {
    LotsAfterClosedForm(lot, lots, sizes, shares, i);
  }

  /** The sweep conserves, never overfills and stays on the grid; and when there
      are enough makers with headroom one pass places every leftover lot. */
  lemma SweptPlacesEverything(lot: nat, lots: nat, sizes: seq<nat>, shares: seq<nat>)
    requires lot > 0 && |shares| == |sizes|
    requires OnGrid(shares, lot)
    requires forall i :: 0 <= i < |sizes| ==> shares[i] <= sizes[i]
    requires lots <= Takers(lot, sizes, shares, |sizes|)
    ensures LotsAfter(lot, lots, sizes, shares, |sizes|) == 0
    ensures var r := Swept(lot, lots, sizes, shares);
            && Sum(r) == Sum(shares) + lot * lots
            && OnGrid(r, lot)
            && forall i :: 0 <= i < |sizes| ==> r[i] <= sizes[i]
  {
    LotsAfterClosedForm(lot, lots, sizes, shares, |sizes|);
    SweptConserves(lot, lots, sizes, shares, |sizes|);
    var r := Swept(lot, lots, sizes, shares);
    assert r[..|sizes|] == r && shares[..|sizes|] == shares;
    forall i | 0 <= i < |sizes|
      ensures r[i] % lot == 0
    {
      AddMultiples(shares[i], lot, lot);
    }
  }

  lemma {:induction false} SweptConserves(lot: nat, lots: nat, sizes: seq<nat>, shares: seq<nat>, n: nat)
    requires |shares| == |sizes| && n <= |sizes|
    ensures Sum(Swept(lot, lots, sizes, shares)[..n]) + lot * LotsAfter(lot, lots, sizes, shares, n)
         == Sum(shares[..n]) + lot * lots
  {
    if n > 0 {
      SweptConserves(lot, lots, sizes, shares, n - 1);
      SumExtends(shares, n - 1);
      SumExtends(Swept(lot, lots, sizes, shares), n - 1);
      Distribute(lot, LotsAfter(lot, lots, sizes, shares, n), 1);
    }
  }
}
