/** What a sweep keeps and what it moves: queue discipline, ids, quantities. */
module SweepFacts {
  import opened Sums
  import opened Wrappers
  import opened Instrument
  import opened Allocation
  import opened Orders
  import opened Book

  // ---------------------------------------------------------------- queues

  lemma QueueFront(spec: InstrumentSpec, side: Side, price: Price, bound: nat, orders: seq<Order>)
    requires spec.lotSize > 0 && orders != [] && QueueOk(spec, side, price, bound, orders)
    ensures QueueOk(spec, side, price, orders[|orders| - 1].arrival, orders[..|orders| - 1])
  {}

  lemma QueueWiden(spec: InstrumentSpec, side: Side, price: Price, bound: nat, wider: nat, orders: seq<Order>)
    requires spec.lotSize > 0 && QueueOk(spec, side, price, bound, orders) && bound <= wider
    ensures QueueOk(spec, side, price, wider, orders)
  {}

  lemma QueueGrow(spec: InstrumentSpec, side: Side, price: Price, bound: nat, front: seq<Order>, order: Order)
    requires spec.lotSize > 0 && QueueOk(spec, side, price, order.arrival, front)
    requires QueueOk(spec, side, price, bound, [order])
    ensures QueueOk(spec, side, price, bound, front + [order])
  {
    assert [order][0] == order;
  }

  lemma {:induction false} ForeignQueue(spec: InstrumentSpec, side: Side, price: Price, bound: nat, orders: seq<Order>,
                                        client: ClientId)
    requires spec.lotSize > 0 && QueueOk(spec, side, price, bound, orders)
    ensures QueueOk(spec, side, price, bound, Foreign(orders, client))
    ensures forall i :: 0 <= i < |Foreign(orders, client)| ==> Foreign(orders, client)[i].client != client
  {
    if orders != [] {
      var n := |orders| - 1;
      QueueFront(spec, side, price, bound, orders);
      ForeignQueue(spec, side, price, orders[n].arrival, orders[..n], client);
      if orders[n].client == client {
        QueueWiden(spec, side, price, orders[n].arrival, bound, Foreign(orders[..n], client));
      } else {
        QueueGrow(spec, side, price, bound, Foreign(orders[..n], client), orders[n]);
      }
    }
  }

  lemma {:induction false} WithoutQueue(spec: InstrumentSpec, side: Side, price: Price, bound: nat, orders: seq<Order>,
                                        id: ExchangeId)
    requires spec.lotSize > 0 && QueueOk(spec, side, price, bound, orders)
    ensures QueueOk(spec, side, price, bound, Without(orders, id))
  {
    if orders != [] {
      var n := |orders| - 1;
      QueueFront(spec, side, price, bound, orders);
      WithoutQueue(spec, side, price, orders[n].arrival, orders[..n], id);
      if orders[n].id == id {
        QueueWiden(spec, side, price, orders[n].arrival, bound, Without(orders[..n], id));
      } else {
        QueueGrow(spec, side, price, bound, Without(orders[..n], id), orders[n]);
      }
    }
  }

  lemma {:induction false} SettleQueue(spec: InstrumentSpec, side: Side, price: Price, bound: nat, orders: seq<Order>,
                                       shares: seq<nat>)
    requires spec.lotSize > 0 && QueueOk(spec, side, price, bound, orders)
    requires |shares| == |orders|
    requires forall i :: 0 <= i < |orders| ==> shares[i] <= orders[i].remaining && shares[i] % spec.lotSize == 0
    ensures QueueOk(spec, side, price, bound, Settle(orders, shares))
  {
    if orders != [] {
      var n := |orders| - 1;
      QueueFront(spec, side, price, bound, orders);
      SettleQueue(spec, side, price, orders[n].arrival, orders[..n], shares[..n]);
      var front := Settle(orders[..n], shares[..n]);
      QueueWiden(spec, side, price, orders[n].arrival, bound, front);
      if shares[n] != orders[n].remaining {
        SubtractMultiples(orders[n].remaining, shares[n], spec.lotSize);
        QueueGrow(spec, side, price, bound, front, orders[n].(remaining := orders[n].remaining - shares[n]));
      }
    }
  }

  lemma {:induction false} SomethingRests(orders: seq<Order>)
    requires orders != [] && Stocked(orders)
    ensures Quantity(orders) > 0
  {}

  lemma {:induction false} ForeignStocked(orders: seq<Order>, client: ClientId)
    requires Stocked(orders)
    ensures Stocked(Foreign(orders, client))
  {
    if orders != [] {
      ForeignStocked(orders[..|orders| - 1], client);
    }
  }

  lemma {:induction false} SettleStocked(orders: seq<Order>, shares: seq<nat>)
    requires Stocked(orders) && |shares| == |orders|
    requires forall i :: 0 <= i < |orders| ==> shares[i] <= orders[i].remaining
    ensures Stocked(Settle(orders, shares))
  {
    if orders != [] {
      SettleStocked(orders[..|orders| - 1], shares[..|orders| - 1]);
    }
  }

  // ------------------------------------------------------------------- ids

  lemma {:induction false} IdBagSplits(orders: seq<Order>, client: ClientId)
    ensures IdBag(orders) == IdBag(Foreign(orders, client)) + IdBag(Own(orders, client))
  {
    if orders != [] {
      IdBagSplits(orders[..|orders| - 1], client);
    }
  }

  lemma {:induction false} SettleIds(orders: seq<Order>, shares: seq<nat>)
    requires |shares| == |orders|
    requires forall i :: 0 <= i < |orders| ==> shares[i] <= orders[i].remaining
    ensures IdBag(Settle(orders, shares)) <= IdBag(orders)
  {
    if orders != [] {
      SettleIds(orders[..|orders| - 1], shares[..|orders| - 1]);
    }
  }

  lemma {:induction false} WithoutIds(orders: seq<Order>, id: ExchangeId)
    ensures IdBag(Without(orders, id)) == IdBag(orders)[id := 0]
  {
    if orders != [] {
      WithoutIds(orders[..|orders| - 1], id);
    }
  }

  lemma {:induction false} IdBagAppends(a: seq<Order>, b: seq<Order>)
    ensures IdBag(a + b) == IdBag(a) + IdBag(b)
  {
    if b == [] {
      assert a + b == a;
    } else {
      assert (a + b)[..|a + b| - 1] == a + b[..|b| - 1];
      IdBagAppends(a, b[..|b| - 1]);
    }
  }

  // ---------------------------------------------------------------- levels

  /** One level, swept: the taker gets what the others have or all it wants, and
      the level keeps its discipline. */
  lemma LevelSweptQueue(spec: InstrumentSpec, policy: Policy, side: Side, bound: nat, level: PriceLevel, taker: Order,
                        now: nat)
    requires spec.lotSize > 0 && Conforming(policy, spec.lotSize) && taker.remaining % spec.lotSize == 0
    requires QueueOk(spec, side, level.price, bound, level.orders)
    ensures var r := SweepLevel(policy, spec.lotSize, level, taker, now);
            && r.remaining % spec.lotSize == 0
            && QueueOk(spec, side, level.price, bound, r.orders)
  {
    var foreign := Foreign(level.orders, taker.client);
    ForeignQueue(spec, side, level.price, bound, level.orders, taker.client);
    PolicyApplied(policy, spec.lotSize, taker.remaining, foreign, now);
    SweptOnLots(policy, spec.lotSize, level, taker, now);
    var shares := Shares(policy(taker.remaining, MakersOf(foreign), now), |foreign|);
    SettleQueue(spec, side, level.price, bound, foreign, shares);
  }

  lemma LevelSweptIds(spec: InstrumentSpec, policy: Policy, level: PriceLevel, taker: Order, now: nat)
    requires spec.lotSize > 0 && Conforming(policy, spec.lotSize) && taker.remaining % spec.lotSize == 0
    requires OnLots(level.orders, spec.lotSize)
    ensures var r := SweepLevel(policy, spec.lotSize, level, taker, now);
            IdBag(r.orders) + IdBag(r.removed) <= IdBag(level.orders)
  {
    var foreign := Foreign(level.orders, taker.client);
    ForeignOnLots(level.orders, taker.client, spec.lotSize);
    PolicyApplied(policy, spec.lotSize, taker.remaining, foreign, now);
    IdBagSplits(level.orders, taker.client);
    SettleIds(foreign, Shares(policy(taker.remaining, MakersOf(foreign), now), |foreign|));
  }

  /** ... and every unit of it is accounted for. */
  lemma LevelSweptQuantities(spec: InstrumentSpec, policy: Policy, level: PriceLevel, taker: Order, now: nat)
    requires spec.lotSize > 0 && Conforming(policy, spec.lotSize) && taker.remaining % spec.lotSize == 0
    requires OnLots(level.orders, spec.lotSize)
    ensures var r := SweepLevel(policy, spec.lotSize, level, taker, now);
            var others := Quantity(Foreign(level.orders, taker.client));
            && r.remaining == taker.remaining - Min(taker.remaining, others)
            && Traded(r.trades) == taker.remaining - r.remaining
            && Quantity(r.orders) == others - Traded(r.trades)
            && Quantity(r.orders) + Traded(r.trades) + Quantity(r.removed) == Quantity(level.orders)
  {
    var foreign := Foreign(level.orders, taker.client);
    ForeignOnLots(level.orders, taker.client, spec.lotSize);
    PolicyApplied(policy, spec.lotSize, taker.remaining, foreign, now);
    var fills := policy(taker.remaining, MakersOf(foreign), now);
    SettleQuantity(foreign, Shares(fills, |foreign|));
    QuantitySplits(level.orders, taker.client);
    TradedIsFilled(level.price, foreign, fills, taker);
  }

  lemma LevelSweptTrades(spec: InstrumentSpec, policy: Policy, level: PriceLevel, taker: Order, now: nat)
    requires spec.lotSize > 0 && Conforming(policy, spec.lotSize) && taker.remaining % spec.lotSize == 0
    requires OnLots(level.orders, spec.lotSize)
    ensures var trades := SweepLevel(policy, spec.lotSize, level, taker, now).trades;
            && (forall k :: 0 <= k < |trades| ==> trades[k].price == level.price && trades[k].quantity > 0)
            && (trades == [] <==> Traded(trades) == 0)
  {
    var foreign := Foreign(level.orders, taker.client);
    ForeignOnLots(level.orders, taker.client, spec.lotSize);
    PolicyApplied(policy, spec.lotSize, taker.remaining, foreign, now);
  }

  /** Whoever survives a level that held no hollow order still holds something. */
  lemma LevelSweptStocked(spec: InstrumentSpec, policy: Policy, level: PriceLevel, taker: Order, now: nat)
    requires spec.lotSize > 0 && Conforming(policy, spec.lotSize) && taker.remaining % spec.lotSize == 0
    requires OnLots(level.orders, spec.lotSize) && Stocked(level.orders)
    ensures Stocked(SweepLevel(policy, spec.lotSize, level, taker, now).orders)
  {
    var foreign := Foreign(level.orders, taker.client);
    ForeignOnLots(level.orders, taker.client, spec.lotSize);
    PolicyApplied(policy, spec.lotSize, taker.remaining, foreign, now);
    ForeignStocked(level.orders, taker.client);
    SettleStocked(foreign, Shares(policy(taker.remaining, MakersOf(foreign), now), |foreign|));
  }

  /** A level drains exactly when the others run out before the taker does. */
  lemma LevelDrains(spec: InstrumentSpec, policy: Policy, side: Side, bound: nat, level: PriceLevel, taker: Order,
                    now: nat)
    requires spec.lotSize > 0 && Conforming(policy, spec.lotSize) && taker.remaining % spec.lotSize == 0
    requires QueueOk(spec, side, level.price, bound, level.orders) && Stocked(level.orders)
    ensures SweepLevel(policy, spec.lotSize, level, taker, now).orders == [] <==>
            Quantity(Foreign(level.orders, taker.client)) <= taker.remaining
  {
    hide SweepLevel, Conforming;
    LevelSweptQuantities(spec, policy, level, taker, now);
    LevelSweptStocked(spec, policy, level, taker, now);
    var orders := SweepLevel(policy, spec.lotSize, level, taker, now).orders;
    if orders != [] {
      SomethingRests(orders);
    }
  }

  lemma SideTail(spec: InstrumentSpec, side: Side, bound: nat, levels: seq<PriceLevel>)
    requires spec.lotSize > 0 && levels != [] && SideOk(spec, side, bound, levels)
    ensures SideOk(spec, side, bound, levels[1..])
    ensures forall i :: 0 < i < |levels| ==> Before(RestsAscending(side), levels[0].price, levels[i].price)
  {}

  lemma LevelOnLots(spec: InstrumentSpec, side: Side, bound: nat, levels: seq<PriceLevel>)
    requires spec.lotSize > 0 && SideOk(spec, side, bound, levels)
    ensures LevelsOnLots(levels, spec.lotSize)
  {}

  // ----------------------------------------------------------------- sides

  ghost predicate NotBetter(ascending: bool, levels: seq<PriceLevel>, than: seq<PriceLevel>) {
    levels != [] ==> than != [] && !Before(ascending, levels[0].price, than[0].price)
  }

  lemma {:induction false} SweepStaysWhole(policy: Policy, lot: nat, levels: seq<PriceLevel>, taker: Order,
                                           limit: Option<Price>, now: nat)
    requires lot > 0 && Conforming(policy, lot) && LevelsOnLots(levels, lot) && taker.remaining % lot == 0
    ensures Sweep(policy, lot, levels, taker, limit, now).remaining % lot == 0
    decreases |levels|
  {
    hide SweepLevel, Conforming, OnLots;
    if taker.remaining > 0 && levels != [] && Crosses(taker.side, levels[0].price, limit) {
      SweptOnLots(policy, lot, levels[0], taker, now);
      var swept := SweepLevel(policy, lot, levels[0], taker, now);
      if swept.orders == [] {
        SweepStaysWhole(policy, lot, levels[1..], taker.(remaining := swept.remaining), limit, now);
      }
    }
  }

  lemma {:induction false} SweepStocked(spec: InstrumentSpec, policy: Policy, levels: seq<PriceLevel>, taker: Order,
                                        limit: Option<Price>, now: nat)
    requires spec.lotSize > 0 && Conforming(policy, spec.lotSize) && taker.remaining % spec.lotSize == 0
    requires LevelsOnLots(levels, spec.lotSize) && SideStocked(levels)
    ensures SideStocked(Sweep(policy, spec.lotSize, levels, taker, limit, now).levels)
    decreases |levels|
  {
    hide SweepLevel, Conforming, Stocked;
    if taker.remaining > 0 && levels != [] && Crosses(taker.side, levels[0].price, limit) {
      LevelSweptStocked(spec, policy, levels[0], taker, now);
      SweptOnLots(policy, spec.lotSize, levels[0], taker, now);
      var swept := SweepLevel(policy, spec.lotSize, levels[0], taker, now);
      if swept.orders == [] {
        SweepStocked(spec, policy, levels[1..], taker.(remaining := swept.remaining), limit, now);
      }
    }
  }

  /** The first level's sweep, and what it leaves the rest of the sweep to work on. */
  lemma HeadSwept(spec: InstrumentSpec, policy: Policy, side: Side, bound: nat, levels: seq<PriceLevel>, taker: Order,
                  now: nat)
    requires spec.lotSize > 0 && Conforming(policy, spec.lotSize) && taker.remaining % spec.lotSize == 0
    requires levels != [] && SideOk(spec, side, bound, levels) && SideStocked(levels)
    ensures OnLots(levels[0].orders, spec.lotSize) && SideOk(spec, side, bound, levels[1..]) && SideStocked(levels[1..])
    ensures var swept, there := SweepLevel(policy, spec.lotSize, levels[0], taker, now),
                                Quantity(Foreign(levels[0].orders, taker.client));
            && swept.remaining == taker.remaining - Min(taker.remaining, there)
            && (swept.orders == [] <==> there <= taker.remaining)
  {
    hide SweepLevel, Conforming;
    SideTail(spec, side, bound, levels);
    LevelSweptQuantities(spec, policy, levels[0], taker, now);
    LevelDrains(spec, policy, side, bound, levels[0], taker, now);
  }

  /** A whole sweep, for any conforming policy: what is left of the taker is what
      the crossing part of the book could not supply, and a taker left with
      anything has nothing more to cross. */
  lemma {:induction false} SweepReaches(spec: InstrumentSpec, policy: Policy, side: Side, bound: nat,
                                        levels: seq<PriceLevel>, taker: Order, limit: Option<Price>, now: nat)
    requires spec.lotSize > 0 && Conforming(policy, spec.lotSize) && taker.remaining % spec.lotSize == 0
    requires LevelsOnLots(levels, spec.lotSize) && SideOk(spec, side, bound, levels) && SideStocked(levels)
    ensures var r := Sweep(policy, spec.lotSize, levels, taker, limit, now);
            && r.remaining == taker.remaining - Min(taker.remaining, Reach(levels, taker, limit))
            && (r.remaining > 0 && r.levels != [] ==>
                  limit.Some? && if taker.side == Bid then r.levels[0].price > limit.value
                                 else r.levels[0].price < limit.value)
    decreases |levels|
  {
    hide SweepLevel, Conforming, OnLots, SideOk, SideStocked, Foreign, Quantity;
    if taker.remaining > 0 && levels != [] && Crosses(taker.side, levels[0].price, limit) {
      HeadSwept(spec, policy, side, bound, levels, taker, now);
      SweptOnLots(policy, spec.lotSize, levels[0], taker, now);
      var rest := taker.(remaining := SweepLevel(policy, spec.lotSize, levels[0], taker, now).remaining);
      ReachIgnoresSize(levels[1..], taker, rest, limit);
      SweepReaches(spec, policy, side, bound, levels[1..], rest, limit, now);
    }
  }

  /** The side stays in order, and its best level never improves. */
  lemma {:induction false} SweepKeepsOrder(spec: InstrumentSpec, policy: Policy, side: Side, bound: nat,
                                           levels: seq<PriceLevel>, taker: Order, limit: Option<Price>, now: nat)
    requires spec.lotSize > 0 && Conforming(policy, spec.lotSize) && taker.remaining % spec.lotSize == 0
    requires LevelsOnLots(levels, spec.lotSize) && SideOk(spec, side, bound, levels)
    ensures var r := Sweep(policy, spec.lotSize, levels, taker, limit, now);
            && SideOk(spec, side, bound, r.levels)
            && NotBetter(RestsAscending(side), r.levels, levels)
    decreases |levels|
  {
    if taker.remaining > 0 && levels != [] && Crosses(taker.side, levels[0].price, limit) {
      SideTail(spec, side, bound, levels);
      LevelSweptQueue(spec, policy, side, bound, levels[0], taker, now);
      var swept := SweepLevel(policy, spec.lotSize, levels[0], taker, now);
      if swept.orders == [] {
        SweepKeepsOrder(spec, policy, side, bound, levels[1..], taker.(remaining := swept.remaining), limit, now);
      } else {
        SideHeadReplaced(spec, side, bound, levels, swept.orders);
      }
    }
  }

  /** Every unit that leaves the side was traded or cancelled as the taker's own. */
  lemma {:induction false} SweepConserves(spec: InstrumentSpec, policy: Policy,
                                          levels: seq<PriceLevel>, taker: Order, limit: Option<Price>, now: nat)
    requires spec.lotSize > 0 && Conforming(policy, spec.lotSize) && taker.remaining % spec.lotSize == 0
    requires LevelsOnLots(levels, spec.lotSize)
    ensures var r := Sweep(policy, spec.lotSize, levels, taker, limit, now);
            && r.remaining <= taker.remaining
            && Traded(r.trades) == taker.remaining - r.remaining
            && Depth(r.levels) + Traded(r.trades) + Quantity(r.removed) == Depth(levels)
    decreases |levels|
  {
    if taker.remaining > 0 && levels != [] && Crosses(taker.side, levels[0].price, limit) {
      LevelSweptQuantities(spec, policy, levels[0], taker, now);
      SweptOnLots(policy, spec.lotSize, levels[0], taker, now);
      var swept := SweepLevel(policy, spec.lotSize, levels[0], taker, now);
      if swept.orders == [] {
        var rest := taker.(remaining := swept.remaining);
        SweepConserves(spec, policy, levels[1..], rest, limit, now);
        var r := Sweep(policy, spec.lotSize, levels[1..], rest, limit, now);
        TradedAppends(swept.trades, r.trades);
        QuantityAppends(swept.removed, r.removed);
      }
    }
  }

  lemma IdsCons(level: PriceLevel, rest: seq<PriceLevel>)
    ensures Ids([level] + rest) == IdBag(level.orders) + Ids(rest)
    ensures Depth([level] + rest) == Quantity(level.orders) + Depth(rest)
  {
    assert ([level] + rest)[1..] == rest;
  }

  lemma DrainedIds(levels: seq<PriceLevel>, own: seq<Order>, after: seq<PriceLevel>, removed: seq<Order>)
    requires levels != [] && IdBag(own) <= IdBag(levels[0].orders)
    requires Ids(after) + IdBag(removed) <= Ids(levels[1..])
    ensures Ids(after) + IdBag(own + removed) <= Ids(levels)
  {
    IdBagAppends(own, removed);
  }

  lemma SurvivedIds(levels: seq<PriceLevel>, own: seq<Order>, kept: seq<Order>)
    requires levels != [] && IdBag(kept) + IdBag(own) <= IdBag(levels[0].orders)
    ensures Ids([PriceLevel(levels[0].price, kept)] + levels[1..]) + IdBag(own) <= Ids(levels)
  {
    IdsCons(PriceLevel(levels[0].price, kept), levels[1..]);
  }

  lemma NothingCancelled()
    ensures IdBag([]) == multiset{}
  {}

  lemma DrainedBag(orders: seq<Order>, own: seq<Order>)
    requires orders == []
    ensures IdBag(own) <= IdBag(orders) + IdBag(own)
  {}

  lemma {:induction false} SweepIds(spec: InstrumentSpec, policy: Policy,
                                    levels: seq<PriceLevel>, taker: Order, limit: Option<Price>, now: nat)
    requires spec.lotSize > 0 && Conforming(policy, spec.lotSize) && taker.remaining % spec.lotSize == 0
    requires LevelsOnLots(levels, spec.lotSize)
    ensures var r := Sweep(policy, spec.lotSize, levels, taker, limit, now);
            Ids(r.levels) + IdBag(r.removed) <= Ids(levels)
    decreases |levels|
  {
    hide SweepLevel, Conforming, OnLots, Ids, IdBag;
    NothingCancelled();
    if taker.remaining > 0 && levels != [] && Crosses(taker.side, levels[0].price, limit) {
      LevelSweptIds(spec, policy, levels[0], taker, now);
      SweptOnLots(policy, spec.lotSize, levels[0], taker, now);
      var swept := SweepLevel(policy, spec.lotSize, levels[0], taker, now);
      if swept.orders == [] {
        DrainedBag(swept.orders, swept.removed);
        var rest := taker.(remaining := swept.remaining);
        SweepIds(spec, policy, levels[1..], rest, limit, now);
        var r := Sweep(policy, spec.lotSize, levels[1..], rest, limit, now);
        DrainedIds(levels, swept.removed, r.levels, r.removed);
      } else {
        SurvivedIds(levels, swept.removed, swept.orders);
      }
    }
  }

  lemma {:induction false} ReachIgnoresSize(levels: seq<PriceLevel>, taker: Order, other: Order, limit: Option<Price>)
    requires taker.client == other.client && taker.side == other.side
    ensures Reach(levels, taker, limit) == Reach(levels, other, limit)
  {
    if levels != [] {
      ReachIgnoresSize(levels[1..], taker, other, limit);
    }
  }

  lemma SideHeadReplaced(spec: InstrumentSpec, side: Side, bound: nat, levels: seq<PriceLevel>, orders: seq<Order>)
    requires spec.lotSize > 0 && levels != [] && SideOk(spec, side, bound, levels)
    requires orders != [] && QueueOk(spec, side, levels[0].price, bound, orders)
    ensures SideOk(spec, side, bound, [PriceLevel(levels[0].price, orders)] + levels[1..])
  {
    var after := [PriceLevel(levels[0].price, orders)] + levels[1..];
    assert forall i :: 0 <= i < |after| ==> after[i].price == levels[i].price;
  }

  /** A buyer's limit is not exceeded, a seller's not undercut. */
  predicate Honours(taker: Side, price: Price, limit: Option<Price>) {
    && (limit.Some? && taker == Bid ==> price <= limit.value)
    && (limit.Some? && taker == Ask ==> price >= limit.value)
  }

  /** Trades print at the maker's level, never beyond the taker's limit, and a
      sweep without trades is a sweep that moved nothing to the taker. */
  lemma {:induction false} TradesWithinLimit(spec: InstrumentSpec, policy: Policy,
                                             levels: seq<PriceLevel>, taker: Order, limit: Option<Price>, now: nat)
    requires spec.lotSize > 0 && Conforming(policy, spec.lotSize) && taker.remaining % spec.lotSize == 0
    requires LevelsOnLots(levels, spec.lotSize)
    ensures var trades := Sweep(policy, spec.lotSize, levels, taker, limit, now).trades;
            && (forall k :: 0 <= k < |trades| ==> Honours(taker.side, trades[k].price, limit) && trades[k].quantity > 0)
            && (trades == [] <==> Traded(trades) == 0)
    decreases |levels|
  {
    if taker.remaining > 0 && levels != [] && Crosses(taker.side, levels[0].price, limit) {
      LevelSweptTrades(spec, policy, levels[0], taker, now);
      SweptOnLots(policy, spec.lotSize, levels[0], taker, now);
      var swept := SweepLevel(policy, spec.lotSize, levels[0], taker, now);
      if swept.orders == [] {
        var rest := taker.(remaining := swept.remaining);
        TradesWithinLimit(spec, policy, levels[1..], rest, limit, now);
        TradedAppends(swept.trades, Sweep(policy, spec.lotSize, levels[1..], rest, limit, now).trades);
      }
    }
  }

  /** The dry run and the real sweep agree, whichever policy shares the levels. */
  lemma DryRunAgrees(spec: InstrumentSpec, policy: Policy, side: Side, bound: nat,
                     levels: seq<PriceLevel>, taker: Order, limit: Option<Price>, now: nat)
    requires spec.lotSize > 0 && Conforming(policy, spec.lotSize) && taker.remaining % spec.lotSize == 0
    requires LevelsOnLots(levels, spec.lotSize) && SideOk(spec, side, bound, levels) && SideStocked(levels)
    ensures Reach(levels, taker, limit) >= taker.remaining <==>
            Sweep(policy, spec.lotSize, levels, taker, limit, now).remaining == 0
  {
    SweepReaches(spec, policy, side, bound, levels, taker, limit, now);
  }

  /** Everything others offer at prices within a limit, on the whole side. */
  function Offered(levels: seq<PriceLevel>, taker: Side, client: ClientId, limit: Price): nat {
    if levels == [] then 0
    else
      (if (taker == Bid && levels[0].price <= limit) || (taker == Ask && levels[0].price >= limit)
       then Quantity(Foreign(levels[0].orders, client)) else 0)
      + Offered(levels[1..], taker, client, limit)
  }

  lemma {:induction false} NothingOffered(levels: seq<PriceLevel>, taker: Side, client: ClientId, limit: Price)
    requires forall i :: 0 <= i < |levels| ==>
               if taker == Bid then levels[i].price > limit else levels[i].price < limit
    ensures Offered(levels, taker, client, limit) == 0
  {
    if levels != [] {
      NothingOffered(levels[1..], taker, client, limit);
    }
  }

  /** The dry run stops at the first level beyond the limit, and has then counted
      everything on offer within it. */
  lemma {:induction false} ReachIsOffered(levels: seq<PriceLevel>, taker: Order, limit: Price)
    requires Sorted(RestsAscending(Opposite(taker.side)), levels)
    ensures Reach(levels, taker, Some(limit)) == Offered(levels, taker.side, taker.client, limit)
  {
    hide Foreign, Quantity;
    if levels != [] {
      if Crosses(taker.side, levels[0].price, Some(limit)) {
        ReachIsOffered(levels[1..], taker, limit);
      } else {
        forall i | 0 <= i < |levels|
          ensures if taker.side == Bid then levels[i].price > limit else levels[i].price < limit
        {
          assert i == 0 || Before(RestsAscending(Opposite(taker.side)), levels[0].price, levels[i].price);
        }
        NothingOffered(levels, taker.side, taker.client, limit);
      }
    }
  }
}
