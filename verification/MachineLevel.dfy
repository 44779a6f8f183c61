/** One price level as the weighted allocators compute on it: 64-bit sizes,
    128-bit intermediates, and the passes the two of them share. */
module MachineLevel {
  import opened Sums
  import opened Widths
  import opened Allocation
  import opened Weighted

  /** The ranges the type system of the source guarantees: 64-bit quantities and
      a slice no longer than the address space. */
  ghost predicate FitsMachine(makers: seq<Maker>) {
    && |makers| < TWO_64
    && forall i :: 0 <= i < |makers| ==> makers[i].remaining < TWO_64 && makers[i].arrival < TWO_128
  }

  lemma {:induction false} PrefixTotalFits(sizes: seq<nat>, n: nat)
    requires n <= |sizes| && forall i :: 0 <= i < |sizes| ==> sizes[i] < TWO_64
    ensures Sum(sizes[..n]) <= n * 0xFFFF_FFFF_FFFF_FFFF
  {
    if n > 0 {
      PrefixTotalFits(sizes, n - 1);
      SumExtends(sizes, n - 1);
    }
  }

  method TotalOf(makers: seq<Maker>) returns (total: u128)
    requires FitsMachine(makers)
    ensures total as nat == Sum(Sizes(makers))
  {
    ghost var sizes := Sizes(makers);
    total := 0;
    for i := 0 to |makers|
      invariant total as nat == Sum(sizes[..i])
    {
      PrefixTotalFits(sizes, i + 1);
      SumExtends(sizes, i);
      total := total + makers[i].remaining as u128;
    }
    assert sizes[..|makers|] == sizes;
  }

  /** The non-empty entries of `shares`, as fills. */
  method Collect(shares: seq<u64>) returns (fills: seq<Fill>)
    ensures fills == Touched(Plain(shares))
  {
    fills := [];
    for i := 0 to |shares|
      invariant fills == Touched(Plain(shares)[..i])
    {
      assert Plain(shares)[..i + 1][..i] == Plain(shares)[..i];
      if shares[i] > 0 {
        fills := fills + [Fill(i, shares[i] as nat)];
      }
    }
    assert Plain(shares)[..|shares|] == Plain(shares);
  }

  ghost function Plain(shares: seq<u64>): (p: seq<nat>)
    ensures |p| == |shares|
    ensures forall i :: 0 <= i < |shares| ==> p[i] == shares[i] as nat
  {
    seq(|shares|, i requires 0 <= i < |shares| => shares[i] as nat)
  }

  /** The front-to-back sweep both weighted policies finish with. Whenever enough
      makers have room the leftover is gone at the end. */
  method SweepCrumbs(lot: u64, leftover: u64, ghost lots: nat, makers: seq<Maker>, start: seq<u64>)
    returns (shares: seq<u64>, left: u64)
    requires leftover as nat == lot as nat * lots && lot > 0
    requires FitsMachine(makers) && |start| == |makers|
    requires forall i :: 0 <= i < |makers| ==> start[i] as nat <= makers[i].remaining
    ensures Plain(shares) == Swept(lot as nat, lots, Sizes(makers), Plain(start))
    ensures left == 0 <==> lots <= Takers(lot as nat, Sizes(makers), Plain(start), |makers|)
  {
    hide Takers, LotsAfter, Swept;
    ghost var l, sizes, plain := lot as nat, Sizes(makers), Plain(start);
    shares := start;
    left := leftover;
    AllLotsYet(l, lots, sizes, plain);
    var i := 0;
    while i < |makers|
      invariant i <= |makers| == |shares|
      invariant left as nat == l * LotsAfter(l, lots, sizes, plain, i)
      invariant forall j :: 0 <= j < i ==> shares[j] as nat == Swept(l, lots, sizes, plain)[j]
      invariant forall j :: i <= j < |makers| ==> shares[j] == start[j]
    {
      if left == 0 {
        CancelLe(l, LotsAfter(l, lots, sizes, plain, i), 0);
        NothingDropped(l, lots, sizes, plain, i);
        NothingLeft(l, lots, sizes, plain, i);
        break;
      }
      CrumbStep(l, lots, sizes, plain, i);
      if makers[i].remaining - shares[i] as nat >= lot as nat {
        shares := shares[i := shares[i] + lot];
        left := left - lot;
      }
      i := i + 1;
    }
    NothingLeftWhen(l, lots, sizes, plain);
  }

  lemma AllLotsYet(lot: nat, lots: nat, sizes: seq<nat>, shares: seq<nat>)
    requires |shares| == |sizes|
    ensures LotsAfter(lot, lots, sizes, shares, 0) == lots
  {}

  /** One maker: it takes a lot if it has room and any is left. */
  lemma CrumbStep(lot: nat, lots: nat, sizes: seq<nat>, shares: seq<nat>, i: nat)
    requires |shares| == |sizes| && i < |sizes|
    requires lot * LotsAfter(lot, lots, sizes, shares, i) > 0
    ensures var here := lot * LotsAfter(lot, lots, sizes, shares, i);
            var next := lot * LotsAfter(lot, lots, sizes, shares, i + 1);
            var after := Swept(lot, lots, sizes, shares)[i];
            if Headroom(lot, sizes, shares, i) then here == next + lot && after == shares[i] + lot
            else here == next && after == shares[i]
  {
    if LotsAfter(lot, lots, sizes, shares, i) > 0 {
      Distribute(lot, LotsAfter(lot, lots, sizes, shares, i) - 1, 1);
    }
  }

  lemma NothingLeftWhen(lot: nat, lots: nat, sizes: seq<nat>, shares: seq<nat>)
    requires lot > 0 && |shares| == |sizes|
    ensures lot * LotsAfter(lot, lots, sizes, shares, |sizes|) == 0 <==> lots <= Takers(lot, sizes, shares, |sizes|)
  {
    hide LotsAfter, Takers;
    LotsAfterClosedForm(lot, lots, sizes, shares, |sizes|);
    if LotsAfter(lot, lots, sizes, shares, |sizes|) > 0 {
      MulStrictlyMonotone(lot, 0, LotsAfter(lot, lots, sizes, shares, |sizes|));
    }
  }

  lemma {:induction false} NothingLeft(lot: nat, lots: nat, sizes: seq<nat>, shares: seq<nat>, i: nat)
    requires |shares| == |sizes| && i <= |sizes|
    requires LotsAfter(lot, lots, sizes, shares, i) == 0
    ensures LotsAfter(lot, lots, sizes, shares, |sizes|) == 0
    decreases |sizes| - i
  {
    if i < |sizes| {
      NothingLeft(lot, lots, sizes, shares, i + 1);
    }
  }

  lemma {:induction false} NothingDropped(lot: nat, lots: nat, sizes: seq<nat>, shares: seq<nat>, i: nat)
    requires |shares| == |sizes| && i <= |sizes|
    requires LotsAfter(lot, lots, sizes, shares, i) == 0
    ensures forall j :: i <= j < |sizes| ==> Swept(lot, lots, sizes, shares)[j] == shares[j]
    decreases |sizes| - i
  {
    if i < |sizes| {
      NothingDropped(lot, lots, sizes, shares, i + 1);
    }
  }

  /** A proportional share floored to whole lots: the product of two 64-bit
      values needs all of 128 bits. */
  method LotShare(lot: u128, pool: u128, weight: u128, weightTotal: u128) returns (share: u128)
    requires pool as nat < TWO_64 && weight as nat < TWO_64 && weightTotal > 0 && lot > 0
    ensures share as nat == FloorShare(lot as nat, pool as nat, weight as nat, weightTotal as nat)
  {
    ProductFits(pool as nat, weight as nat);
    FloorShareBounds(lot as nat, pool as nat, weight as nat, weightTotal as nat);
    share := (pool * weight / weightTotal / lot) * lot;
  }

  /** Dividing in 128 bits never leaves them. */
  method Quotient(x: u128, d: u128) returns (q: u128)
    requires d > 0
    ensures q as nat == x as nat / d as nat
  {
    DivShrinks(x as nat, d as nat);
    q := x / d;
  }

  lemma ShareReaches(pool: nat, weight: nat, total: nat, remaining: nat)
    requires pool < TWO_64 && weight < TWO_64 && total > 0
    ensures pool * weight < TWO_128
    ensures pool * weight / total >= remaining <==> pool * weight >= remaining * total
  {
    ProductFits(pool, weight);
    DivReaches(pool * weight, total, remaining);
  }

  /** Whether a proportional share reaches what the maker holds. */
  method Reaches(pool: u128, weight: u128, weightTotal: u128, remaining: u128) returns (reaches: bool)
    requires pool as nat < TWO_64 && weight as nat < TWO_64 && weightTotal > 0
    ensures reaches <==> pool as nat * weight as nat >= remaining as nat * weightTotal as nat
  {
    ShareReaches(pool as nat, weight as nat, weightTotal as nat, remaining as nat);
    var share := Quotient(pool * weight, weightTotal);
    reaches := share >= remaining;
  }

  /** Adding the shares up in 64 bits is safe because they add up to no more
      than a 64-bit taker. */
  method SumOf(shares: seq<u64>) returns (total: u64)
    requires Sum(Plain(shares)) < TWO_64
    ensures total as nat == Sum(Plain(shares))
  {
    ghost var plain := Plain(shares);
    total := 0;
    for i := 0 to |shares|
      invariant total as nat == Sum(plain[..i])
    {
      SumExtends(plain, i);
      SumMonotonePrefix(plain, i + 1, |plain|);
      assert plain[..|plain|] == plain;
      total := total + shares[i];
    }
    assert plain[..|plain|] == plain;
  }

  /** The taker swallows the level: everybody holding something is filled whole. */
  method CollectWhole(makers: seq<Maker>) returns (fills: seq<Fill>)
    ensures fills == Touched(Sizes(makers))
  {
    fills := [];
    var sizes := Sizes(makers);
    for i := 0 to |makers|
      invariant fills == Touched(sizes[..i])
    {
      assert sizes[..i + 1][..i] == sizes[..i];
      if makers[i].remaining != 0 {
        fills := fills + [Fill(i, makers[i].remaining)];
      }
    }
    assert sizes[..|makers|] == sizes;
  }
}
