/** Who a sweep trades with and in what order: never with the taker's own client,
    and never at a better price after a worse one. */
module SelfTrade {
  import opened Wrappers
  import opened Instrument
  import opened Allocation
  import opened Orders
  import opened Book
  import opened SweepFacts

  ghost predicate AllOf(orders: seq<Order>, client: ClientId) {
    forall i :: 0 <= i < |orders| ==> orders[i].client == client
  }

  ghost predicate NoneOf(orders: seq<Order>, client: ClientId) {
    forall i :: 0 <= i < |orders| ==> orders[i].client != client
  }

  ghost predicate WithOthers(trades: seq<Trade>, taker: Order) {
    forall k :: 0 <= k < |trades| ==>
      trades[k].makerClient != taker.client && trades[k].takerClient == taker.client && trades[k].takerId == taker.id
  }

  lemma {:induction false} SplitByClient(orders: seq<Order>, client: ClientId)
    ensures NoneOf(Foreign(orders, client), client) && AllOf(Own(orders, client), client)
    ensures multiset(Foreign(orders, client)) + multiset(Own(orders, client)) == multiset(orders)
  {
    if orders != [] {
      SplitByClient(orders[..|orders| - 1], client);
      assert orders == orders[..|orders| - 1] + [orders[|orders| - 1]];
    }
  }

  lemma {:induction false} SettleClients(orders: seq<Order>, shares: seq<nat>, client: ClientId)
    requires |shares| == |orders| && NoneOf(orders, client)
    requires forall i :: 0 <= i < |orders| ==> shares[i] <= orders[i].remaining
    ensures NoneOf(Settle(orders, shares), client)
  {
    if orders != [] {
      SettleClients(orders[..|orders| - 1], shares[..|orders| - 1], client);
    }
  }

  /** At a level it trades through, a taker meets none of its own client's orders
      and leaves none behind. */
  lemma LevelSweptClients(spec: InstrumentSpec, policy: Policy, level: PriceLevel, taker: Order, now: nat)
    requires spec.lotSize > 0 && Conforming(policy, spec.lotSize) && taker.remaining % spec.lotSize == 0
    requires OnLots(level.orders, spec.lotSize)
    ensures var r := SweepLevel(policy, spec.lotSize, level, taker, now);
            WithOthers(r.trades, taker) && AllOf(r.removed, taker.client) && NoneOf(r.orders, taker.client)
  {
    var foreign := Foreign(level.orders, taker.client);
    ForeignOnLots(level.orders, taker.client, spec.lotSize);
    PolicyApplied(policy, spec.lotSize, taker.remaining, foreign, now);
    SplitByClient(level.orders, taker.client);
    SettleClients(foreign, Shares(policy(taker.remaining, MakersOf(foreign), now), |foreign|), taker.client);
  }

  /** Self-trade prevention over a whole sweep: every trade is with somebody else,
      and everything cancelled was the taker's own. */
  lemma {:induction false} NoSelfTrades(spec: InstrumentSpec, policy: Policy, levels: seq<PriceLevel>, taker: Order,
                                        limit: Option<Price>, now: nat)
    requires spec.lotSize > 0 && Conforming(policy, spec.lotSize) && taker.remaining % spec.lotSize == 0
    requires LevelsOnLots(levels, spec.lotSize)
    ensures var r := Sweep(policy, spec.lotSize, levels, taker, limit, now);
            WithOthers(r.trades, taker) && AllOf(r.removed, taker.client)
    decreases |levels|
  {
    hide SweepLevel, Conforming;
    if taker.remaining > 0 && levels != [] && Crosses(taker.side, levels[0].price, limit) {
      LevelSweptClients(spec, policy, levels[0], taker, now);
      SweptOnLots(policy, spec.lotSize, levels[0], taker, now);
      var swept := SweepLevel(policy, spec.lotSize, levels[0], taker, now);
      if swept.orders == [] {
        NoSelfTrades(spec, policy, levels[1..], taker.(remaining := swept.remaining), limit, now);
      }
    }
  }

  /** Prices only get worse for the taker as a sweep goes on. */
  ghost predicate Outwards(ascending: bool, trades: seq<Trade>) {
    forall i, j :: 0 <= i < j < |trades| ==> !Before(ascending, trades[j].price, trades[i].price)
  }

  ghost predicate PrintedAmong(trades: seq<Trade>, levels: seq<PriceLevel>) {
    forall k :: 0 <= k < |trades| ==> PricedAmong(trades[k].price, levels)
  }

  ghost predicate PricedAmong(price: Price, levels: seq<PriceLevel>) {
    exists i :: 0 <= i < |levels| && levels[i].price == price
  }

  /** Best price first, and every print at the price of a level that was there. */
  lemma {:induction false} TradesWalkOutwards(spec: InstrumentSpec, policy: Policy, ascending: bool,
                                              levels: seq<PriceLevel>,
                                              taker: Order, limit: Option<Price>, now: nat)
    requires spec.lotSize > 0 && Conforming(policy, spec.lotSize) && taker.remaining % spec.lotSize == 0
    requires LevelsOnLots(levels, spec.lotSize) && Sorted(ascending, levels)
    ensures var trades := Sweep(policy, spec.lotSize, levels, taker, limit, now).trades;
            Outwards(ascending, trades) && PrintedAmong(trades, levels)
    decreases |levels|
  {
    hide SweepLevel, Conforming;
    if taker.remaining > 0 && levels != [] && Crosses(taker.side, levels[0].price, limit) {
      LevelSweptTrades(spec, policy, levels[0], taker, now);
      SweptOnLots(policy, spec.lotSize, levels[0], taker, now);
      var swept := SweepLevel(policy, spec.lotSize, levels[0], taker, now);
      var rest: seq<Trade> := [];
      if swept.orders == [] {
        var next := taker.(remaining := swept.remaining);
        TradesWalkOutwards(spec, policy, ascending, levels[1..], next, limit, now);
        rest := Sweep(policy, spec.lotSize, levels[1..], next, limit, now).trades;
      }
      OutwardsJoin(ascending, swept.trades, rest, levels);
      assert swept.trades + [] == swept.trades;
    }
  }

  lemma OutwardsJoin(ascending: bool, here: seq<Trade>, rest: seq<Trade>, levels: seq<PriceLevel>)
    requires levels != [] && Sorted(ascending, levels)
    requires forall k :: 0 <= k < |here| ==> here[k].price == levels[0].price
    requires Outwards(ascending, rest) && PrintedAmong(rest, levels[1..])
    ensures Outwards(ascending, here + rest) && PrintedAmong(here + rest, levels)
  {
    forall k | 0 <= k < |rest|
      ensures PricedAmong(rest[k].price, levels) && Before(ascending, levels[0].price, rest[k].price)
    {
      assert PricedAmong(rest[k].price, levels[1..]);
      var i :| 0 <= i < |levels[1..]| && levels[1..][i].price == rest[k].price;
      assert levels[i + 1].price == rest[k].price;
    }
    assert levels[0].price == levels[0].price && PricedAmong(levels[0].price, levels);
  }
}
