/** Orders that hold nothing. Only a seed can bring one in; no sweep can take one
    out, so it stops every sweep that reaches its level. */
module Hollows {
  import opened Sums
  import opened Wrappers
  import opened Instrument
  import opened Allocation
  import opened Orders
  import opened Book
  import opened SweepFacts
  import opened Engine

  /** The orders of a queue that hold nothing. */
  function Hollow(orders: seq<Order>): seq<Order> {
    if orders == [] then []
    else
      var front, last := Hollow(orders[..|orders| - 1]), orders[|orders| - 1];
      if last.remaining == 0 then front + [last] else front
  }

  /** What a taker of this client cannot clear off a level. */
  function Stuck(level: PriceLevel, client: ClientId): seq<Order> {
    Hollow(Foreign(level.orders, client))
  }

  /** How much a taker gets before the limit, or a level it cannot clear, stops it. */
  function Within(levels: seq<PriceLevel>, side: Side, client: ClientId, limit: Option<Price>): nat {
    if levels == [] || !Crosses(side, levels[0].price, limit) then 0
    else
      Quantity(Foreign(levels[0].orders, client))
      + if Stuck(levels[0], client) == [] then Within(levels[1..], side, client, limit) else 0
  }

  /** What a taker that outlasts all of it leaves of a side. */
  function Beyond(levels: seq<PriceLevel>, side: Side, client: ClientId, limit: Option<Price>): seq<PriceLevel> {
    if levels == [] || !Crosses(side, levels[0].price, limit) then levels
    else
      var stuck := Stuck(levels[0], client);
      if stuck == [] then Beyond(levels[1..], side, client, limit)
      else [PriceLevel(levels[0].price, stuck)] + levels[1..]
  }

  // -------------------------------------------------------------- one level

  lemma {:induction false} NoMoreThanThereIs(orders: seq<Order>, shares: seq<nat>)
    requires |shares| == |orders|
    requires forall i :: 0 <= i < |orders| ==> shares[i] <= orders[i].remaining
    ensures Sum(shares) <= Quantity(orders)
  {
    if orders != [] {
      NoMoreThanThereIs(orders[..|orders| - 1], shares[..|orders| - 1]);
    }
  }

  /** Everybody paid in full: only who held nothing is left. */
  lemma {:induction false} PaidInFull(orders: seq<Order>, shares: seq<nat>)
    requires |shares| == |orders| && Sum(shares) == Quantity(orders)
    requires forall i :: 0 <= i < |orders| ==> shares[i] <= orders[i].remaining
    ensures Settle(orders, shares) == Hollow(orders)
  {
    if orders != [] {
      var n := |orders| - 1;
      NoMoreThanThereIs(orders[..n], shares[..n]);
      PaidInFull(orders[..n], shares[..n]);
    }
  }

  lemma SomethingIsLeft(orders: seq<Order>)
    requires Quantity(orders) > 0
    ensures orders != []
  {}

  /** One level under any conforming policy: a taker that wants no less than is
      there leaves exactly what is stuck, any other leaves something. */
  lemma LevelOutlasted(policy: Policy, lot: nat, level: PriceLevel, taker: Order, now: nat)
    requires lot > 0 && Conforming(policy, lot) && OnLots(level.orders, lot) && taker.remaining % lot == 0
    ensures var swept := SweepLevel(policy, lot, level, taker, now);
            var there := Quantity(Foreign(level.orders, taker.client));
            && swept.remaining == taker.remaining - Min(taker.remaining, there)
            && (there <= taker.remaining ==> swept.orders == Stuck(level, taker.client))
            && (there > taker.remaining ==> swept.orders != [])
  {
    hide Conforming, OnLots, Contract, Settle, Hollow, TradesOf, Quantities, Shares;
    var foreign := Foreign(level.orders, taker.client);
    ForeignOnLots(level.orders, taker.client, lot);
    PolicyApplied(policy, lot, taker.remaining, foreign, now);
    var shares := Shares(policy(taker.remaining, MakersOf(foreign), now), |foreign|);
    SettleQuantity(foreign, shares);
    if Quantity(foreign) <= taker.remaining {
      PaidInFull(foreign, shares);
    } else {
      SomethingIsLeft(Settle(foreign, shares));
    }
  }

  // -------------------------------------------------------------- a sweep

  /** A sweep under any conforming policy, hollow orders or not: what is left of the
      taker, and what it leaves of the side if anything of it is left. */
  lemma {:induction false} SweepExactly(policy: Policy, lot: nat, levels: seq<PriceLevel>, taker: Order,
                                        limit: Option<Price>, now: nat)
    requires lot > 0 && Conforming(policy, lot) && LevelsOnLots(levels, lot) && taker.remaining % lot == 0
    ensures var r := Sweep(policy, lot, levels, taker, limit, now);
            var within := Within(levels, taker.side, taker.client, limit);
            && r.remaining == taker.remaining - Min(taker.remaining, within)
            && (r.remaining > 0 ==> r.levels == Beyond(levels, taker.side, taker.client, limit))
    decreases |levels|
  {
    hide SweepLevel, Conforming, OnLots, Stuck, Foreign, Quantity;
    if taker.remaining > 0 && levels != [] && Crosses(taker.side, levels[0].price, limit) {
      LevelOutlasted(policy, lot, levels[0], taker, now);
      SweptOnLots(policy, lot, levels[0], taker, now);
      var swept := SweepLevel(policy, lot, levels[0], taker, now);
      if swept.orders == [] {
        SweepExactly(policy, lot, levels[1..], taker.(remaining := swept.remaining), limit, now);
      }
    }
  }

  // --------------------------------------------- where nothing hollow rests

  lemma {:induction false} NothingHollow(orders: seq<Order>)
    ensures Hollow(orders) == [] <==> Stocked(orders)
  {
    if orders != [] {
      var n := |orders| - 1;
      NothingHollow(orders[..n]);
      assert Stocked(orders) <==> Stocked(orders[..n]) && orders[n].remaining > 0;
    }
  }

  /** Then a taker gets what is in reach, which is what the dry run counts. */
  lemma {:induction false} StockedWithin(levels: seq<PriceLevel>, taker: Order, limit: Option<Price>)
    requires SideStocked(levels)
    ensures Within(levels, taker.side, taker.client, limit) == Reach(levels, taker, limit)
  {
    hide Stocked, Hollow, Quantity;
    if levels != [] && Crosses(taker.side, levels[0].price, limit) {
      ForeignStocked(levels[0].orders, taker.client);
      NothingHollow(Foreign(levels[0].orders, taker.client));
      StockedWithin(levels[1..], taker, limit);
    }
  }

  /** In every reachable book, hollow seeds included: fill-or-kill is what it claims
      to be exactly when no hollow order stands between the dry run and the sweep. */
  lemma FokKeepsItsPromiseExactlyWhen(venue: Venue, b: Book, order: Order, limit: Price)
    requires Ready(venue, b) && Whole(venue, order)
    ensures var e := ProcessFok(venue, b, order, limit).result.value;
            var levels := b.Levels(Opposite(order.side));
            var within := Within(levels, order.side, order.client, Some(limit));
            && (e.outcome == Filled <==> Reach(levels, order, Some(limit)) >= order.remaining)
            && (e.outcome != Filled ==> e.outcome == Killed && e.trades == [] && e.removed == []
                                        && ProcessFok(venue, b, order, limit).book == b)
            && (e.outcome == Filled ==> Traded(e.trades) == Min(order.remaining, within))
            && ((e.outcome == Filled ==> Traded(e.trades) == order.remaining) <==>
                !(within < order.remaining <= Reach(levels, order, Some(limit))))
  {
    hide Sweep, LiveIds, Within, Reach;
    var side := Opposite(order.side);
    LevelOnLots(venue.spec, side, b.nextArrival, b.Levels(side));
    SweepExactly(venue.policy, venue.spec.lotSize, b.Levels(side), order, Some(limit), b.nextArrival);
    SweepConserves(venue.spec, venue.policy, b.Levels(side), order, Some(limit), b.nextArrival);
  }
}
