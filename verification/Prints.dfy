/** What the trades of a sweep say about the orders they name: every maker is
    debited exactly what its trades print, an order of the taker's client is traded
    with never and cancelled when it goes, and nobody else is touched. */
module Prints {
  import opened Wrappers
  import opened Instrument
  import opened Allocation
  import opened Orders
  import opened Book
  import opened SweepFacts
  import opened LevelFacts
  import opened SelfTrade

  /** How much the trades with this maker add up to. */
  function TradedWith(trades: seq<Trade>, id: ExchangeId): nat {
    if trades == [] then 0
    else
      var front, last := TradedWith(trades[..|trades| - 1], id), trades[|trades| - 1];
      if last.makerId == id then front + last.quantity else front
  }

  ghost predicate Resting(levels: seq<PriceLevel>, order: Order) {
    exists i :: 0 <= i < |levels| && order in levels[i].orders
  }

  /** What became of one order that rested where a taker of this client swept. */
  ghost predicate MakerTold(m: Order, trades: seq<Trade>, client: ClientId, cancelled: seq<ExchangeId>,
                            after: seq<PriceLevel>)
  {
    var paid := TradedWith(trades, m.id);
    if m.client == client then
      paid == 0 && if m.id in cancelled then m.id !in Ids(after) else Resting(after, m)
    else
      && m.id !in cancelled && paid <= m.remaining
      && if 0 < paid == m.remaining then m.id !in Ids(after)
         else Resting(after, m.(remaining := m.remaining - paid))
  }

  /** The trade names an order that rested there, at that order's own price. */
  ghost predicate TradeNames(levels: seq<PriceLevel>, t: Trade) {
    exists m :: Resting(levels, m) && m.kind.Limit?
                && t == t.(makerId := m.id, makerClient := m.client, price := m.kind.price)
  }

  // ------------------------------------------------------------- membership

  lemma InOrders(orders: seq<Order>, order: Order)
    requires order in orders
    ensures order.id in IdBag(orders)
  {
    var j :| 0 <= j < |orders| && orders[j] == order;
    IdIsCounted(orders, j);
  }

  lemma RestingIsListed(levels: seq<PriceLevel>, order: Order)
    requires Resting(levels, order)
    ensures order.id in Ids(levels)
  {
    var i :| 0 <= i < |levels| && order in levels[i].orders;
    var j :| 0 <= j < |levels[i].orders| && levels[i].orders[j] == order;
    IdIsListed(levels, i, j);
  }

  lemma RestsInHead(level: PriceLevel, rest: seq<PriceLevel>, order: Order)
    ensures order in level.orders ==> Resting([level] + rest, order)
    ensures Resting(rest, order) ==> Resting([level] + rest, order)
  {
    if order in level.orders {
      assert ([level] + rest)[0] == level;
    }
    if Resting(rest, order) {
      var i :| 0 <= i < |rest| && order in rest[i].orders;
      assert ([level] + rest)[i + 1] == rest[i];
    }
  }

  lemma RestsSomewhere(levels: seq<PriceLevel>, order: Order)
    requires levels != []
    ensures Resting(levels, order) <==> order in levels[0].orders || Resting(levels[1..], order)
  {
    assert levels == [levels[0]] + levels[1..];
    RestsInHead(levels[0], levels[1..], order);
    if Resting(levels, order) {
      var i :| 0 <= i < |levels| && order in levels[i].orders;
      assert i > 0 ==> levels[1..][i - 1] == levels[i];
    }
  }

  // --------------------------------------------------------- trades by maker

  lemma {:induction false} TradedWithAppends(a: seq<Trade>, b: seq<Trade>, id: ExchangeId)
    ensures TradedWith(a + b, id) == TradedWith(a, id) + TradedWith(b, id)
  {
    if b == [] {
      assert a + b == a;
    } else {
      assert (a + b)[..|a + b| - 1] == a + b[..|b| - 1];
      TradedWithAppends(a, b[..|b| - 1], id);
    }
  }

  lemma {:induction false} TradedWithNobody(trades: seq<Trade>, id: ExchangeId)
    requires forall k :: 0 <= k < |trades| ==> trades[k].makerId != id
    ensures TradedWith(trades, id) == 0
  {
    if trades != [] {
      TradedWithNobody(trades[..|trades| - 1], id);
    }
  }

  ghost predicate OncePerOrder(orders: seq<Order>) {
    forall i, j :: 0 <= i < j < |orders| ==> orders[i].id != orders[j].id
  }

  /** The prints of one level, by maker, are the fills. */
  lemma {:induction false} TradedWithIsShare(price: Price, makers: seq<Order>, fills: seq<Fill>, taker: Order, j: nat)
    requires Increasing(fills) && OncePerOrder(makers) && j < |makers|
    requires forall k :: 0 <= k < |fills| ==> fills[k].index < |makers|
    ensures TradedWith(TradesOf(price, makers, fills, taker), makers[j].id) == ShareOf(fills, j)
  {
    if fills != [] {
      var n := |fills| - 1;
      var trades := TradesOf(price, makers, fills, taker);
      TradedWithIsShare(price, makers, fills[..n], taker, j);
      assert trades[..n] == TradesOf(price, makers, fills[..n], taker);
      if fills[n].index == j {
        ShareOfAbsent(fills[..n], j);
      }
    }
  }

  // -------------------------------------------------------------- one level

  lemma {:induction false} ForeignAt(orders: seq<Order>, client: ClientId, m: Order)
    ensures m in Foreign(orders, client) <==> m in orders && m.client != client
    ensures m in Own(orders, client) <==> m in orders && m.client == client
  {
    if orders != [] {
      ForeignAt(orders[..|orders| - 1], client, m);
      assert orders == orders[..|orders| - 1] + [orders[|orders| - 1]];
    }
  }

  lemma {:induction false} OnceFromBag(orders: seq<Order>)
    requires Distinct(IdBag(orders))
    ensures OncePerOrder(orders)
  {
    if orders != [] {
      var n := |orders| - 1;
      FewerIds(IdBag(orders[..n]), IdBag(orders));
      OnceFromBag(orders[..n]);
      forall i | 0 <= i < n
        ensures orders[i].id != orders[n].id
      {
        IdIsCounted(orders[..n], i);
        assert IdBag(orders)[orders[n].id] <= 1;
      }
    }
  }

  lemma OnceForeign(orders: seq<Order>, client: ClientId)
    requires Distinct(IdBag(orders))
    ensures OncePerOrder(Foreign(orders, client)) && Distinct(IdBag(Foreign(orders, client)))
  {
    IdBagSplits(orders, client);
    FewerIds(IdBag(Foreign(orders, client)), IdBag(orders));
    OnceFromBag(Foreign(orders, client));
  }

  lemma {:induction false} NotCounted(orders: seq<Order>, id: ExchangeId)
    requires forall i :: 0 <= i < |orders| ==> orders[i].id != id
    ensures id !in IdBag(orders)
  {
    if orders != [] {
      NotCounted(orders[..|orders| - 1], id);
    }
  }

  /** What settling leaves of one order. */
  lemma {:induction false} SettleLeaves(orders: seq<Order>, shares: seq<nat>, j: nat)
    requires |shares| == |orders| && j < |orders| && OncePerOrder(orders)
    requires forall i :: 0 <= i < |orders| ==> shares[i] <= orders[i].remaining
    ensures if 0 < shares[j] == orders[j].remaining then orders[j].id !in IdBag(Settle(orders, shares))
            else orders[j].(remaining := orders[j].remaining - shares[j]) in Settle(orders, shares)
  {
    hide IdBag, Settle;
    var n := |orders| - 1;
    SettleLast(orders, shares);
    if j < n {
      SettleLeaves(orders[..n], shares[..n], j);
    } else {
      SettleIds(orders[..n], shares[..n]);
      NotCounted(orders[..n], orders[n].id);
    }
  }

  lemma SettleLast(orders: seq<Order>, shares: seq<nat>)
    requires |shares| == |orders| && orders != []
    requires forall i :: 0 <= i < |orders| ==> shares[i] <= orders[i].remaining
    ensures var n := |orders| - 1;
            var front := Settle(orders[..n], shares[..n]);
            var last := orders[n].(remaining := orders[n].remaining - shares[n]);
            if 0 < shares[n] == orders[n].remaining then Settle(orders, shares) == front
            else Settle(orders, shares) == front + [last] && IdBag(front + [last]) == IdBag(front) + multiset{last.id}
  {
    var n := |orders| - 1;
    var front := Settle(orders[..n], shares[..n]);
    var last := orders[n].(remaining := orders[n].remaining - shares[n]);
    assert (front + [last])[..|front|] == front;
  }

  /** Nothing comes of settling but what was there, paid down. */
  lemma {:induction false} SettledFrom(orders: seq<Order>, shares: seq<nat>, o: Order)
    requires |shares| == |orders|
    requires forall i :: 0 <= i < |orders| ==> shares[i] <= orders[i].remaining
    requires o in Settle(orders, shares)
    ensures exists m :: m in orders && o == m.(remaining := o.remaining) && o.remaining <= m.remaining
  {
    var n := |orders| - 1;
    assert orders[n] in orders;
    if o in Settle(orders[..n], shares[..n]) {
      SettledFrom(orders[..n], shares[..n], o);
      var m :| m in orders[..n] && o == m.(remaining := o.remaining) && o.remaining <= m.remaining;
      assert m in orders;
    }
  }

  ghost predicate Priced(level: PriceLevel) {
    forall j :: 0 <= j < |level.orders| ==> level.orders[j].kind.Limit? && level.orders[j].kind.price == level.price
  }

  ghost predicate AllPriced(levels: seq<PriceLevel>) {
    forall i :: 0 <= i < |levels| ==> Priced(levels[i])
  }

  ghost predicate AllNamed(levels: seq<PriceLevel>, trades: seq<Trade>) {
    forall k :: 0 <= k < |trades| ==> TradeNames(levels, trades[k])
  }

  lemma OneLevel(price: Price, orders: seq<Order>)
    ensures Ids([PriceLevel(price, orders)]) == IdBag(orders)
    ensures forall m :: Resting([PriceLevel(price, orders)], m) <==> m in orders
  {
    var level := PriceLevel(price, orders);
    assert [level][1..] == [];
    forall m
      ensures Resting([level], m) <==> m in orders
    {
      assert [level][0] == level;
    }
  }

  /** One level's sweep, as seen by one of its orders. */
  lemma LevelMaker(policy: Policy, lot: nat, level: PriceLevel, taker: Order, now: nat, m: Order)
    requires lot > 0 && Conforming(policy, lot) && OnLots(level.orders, lot) && taker.remaining % lot == 0
    requires Distinct(IdBag(level.orders)) && m in level.orders
    ensures var r := SweepLevel(policy, lot, level, taker, now);
            MakerTold(m, r.trades, taker.client, IdsOf(r.removed), [PriceLevel(level.price, r.orders)])
  {
    hide Conforming, Foreign, Own, Settle, TradesOf, IdBag, TradedWith, OnLots, Ids, Resting;
    var foreign, own := Foreign(level.orders, taker.client), Own(level.orders, taker.client);
    ForeignOnLots(level.orders, taker.client, lot);
    PolicyApplied(policy, lot, taker.remaining, foreign, now);
    var fills := policy(taker.remaining, MakersOf(foreign), now);
    var shares := Shares(fills, |foreign|);
    ForeignAt(level.orders, taker.client, m);
    OnceForeign(level.orders, taker.client);
    OneLevel(level.price, Settle(foreign, shares));
    if m.client == taker.client {
      OwnUntraded(level, foreign, own, fills, shares, taker, m);
    } else {
      ForeignTold(level, foreign, own, fills, shares, taker, m);
    }
  }

  lemma OwnUntraded(level: PriceLevel, foreign: seq<Order>, own: seq<Order>, fills: seq<Fill>, shares: seq<nat>,
                    taker: Order, m: Order)
    requires foreign == Foreign(level.orders, taker.client) && own == Own(level.orders, taker.client)
    requires Distinct(IdBag(level.orders)) && m in own
    requires forall k :: 0 <= k < |fills| ==> fills[k].index < |foreign|
    requires |shares| == |foreign| && forall i :: 0 <= i < |foreign| ==> shares[i] <= foreign[i].remaining
    ensures TradedWith(TradesOf(level.price, foreign, fills, taker), m.id) == 0
    ensures m.id in IdsOf(own) && m.id !in IdBag(Settle(foreign, shares))
  {
    hide Foreign, Own, Settle, TradedWith, IdBag;
    IdBagSplits(level.orders, taker.client);
    InOrders(own, m);
    NotInBoth(IdBag(level.orders), IdBag(own), IdBag(foreign), m.id);
    SettleIds(foreign, shares);
    var trades := TradesOf(level.price, foreign, fills, taker);
    forall k | 0 <= k < |trades|
      ensures trades[k].makerId != m.id
    {
      IdIsCounted(foreign, fills[k].index);
    }
    TradedWithNobody(trades, m.id);
    var j :| 0 <= j < |own| && own[j] == m;
    assert IdsOf(own)[j] == m.id;
  }

  lemma ForeignTold(level: PriceLevel, foreign: seq<Order>, own: seq<Order>, fills: seq<Fill>, shares: seq<nat>,
                    taker: Order, m: Order)
    requires foreign == Foreign(level.orders, taker.client) && own == Own(level.orders, taker.client)
    requires Distinct(IdBag(level.orders)) && OncePerOrder(foreign) && m in foreign
    requires Increasing(fills) && forall k :: 0 <= k < |fills| ==> fills[k].index < |foreign|
    requires shares == Shares(fills, |foreign|) && forall i :: 0 <= i < |foreign| ==> shares[i] <= foreign[i].remaining
    ensures var paid := TradedWith(TradesOf(level.price, foreign, fills, taker), m.id);
            && m.id !in IdsOf(own) && paid <= m.remaining
            && if 0 < paid == m.remaining then m.id !in IdBag(Settle(foreign, shares))
               else m.(remaining := m.remaining - paid) in Settle(foreign, shares)
  {
    hide Foreign, Own, Settle, TradedWith, IdBag, ShareOf;
    IdBagSplits(level.orders, taker.client);
    InOrders(foreign, m);
    NotInBoth(IdBag(level.orders), IdBag(foreign), IdBag(own), m.id);
    if m.id in IdsOf(own) {
      var k :| 0 <= k < |own| && own[k].id == m.id;
      IdIsCounted(own, k);
    }
    var j :| 0 <= j < |foreign| && foreign[j] == m;
    TradedWithIsShare(level.price, foreign, fills, taker, j);
    SettleLeaves(foreign, shares, j);
  }

  /** One level's prints name orders that rested on it. */
  lemma LevelNames(policy: Policy, lot: nat, level: PriceLevel, taker: Order, now: nat)
    requires lot > 0 && Conforming(policy, lot) && OnLots(level.orders, lot) && taker.remaining % lot == 0
    requires Priced(level)
    ensures AllNamed([level], SweepLevel(policy, lot, level, taker, now).trades)
  {
    hide Conforming, Foreign, Own, Settle, OnLots;
    var foreign := Foreign(level.orders, taker.client);
    ForeignOnLots(level.orders, taker.client, lot);
    PolicyApplied(policy, lot, taker.remaining, foreign, now);
    var fills := policy(taker.remaining, MakersOf(foreign), now);
    var trades := TradesOf(level.price, foreign, fills, taker);
    forall k | 0 <= k < |trades|
      ensures TradeNames([level], trades[k])
    {
      var m := foreign[fills[k].index];
      ForeignAt(level.orders, taker.client, m);
      RestsInHead(level, [], m);
      assert [level] + [] == [level];
      var j :| 0 <= j < |level.orders| && level.orders[j] == m;
    }
  }

  // -------------------------------------------------------------- a sweep

  lemma NamedMore(levels: seq<PriceLevel>, a: seq<Trade>, b: seq<Trade>)
    requires levels != [] && AllNamed([levels[0]], a) && AllNamed(levels[1..], b)
    ensures AllNamed(levels, a + b)
  {
    forall k | 0 <= k < |a + b|
      ensures TradeNames(levels, (a + b)[k])
    {
      if k < |a| {
        assert TradeNames([levels[0]], a[k]);
        var m :| Resting([levels[0]], m) && m.kind.Limit?
                 && a[k] == a[k].(makerId := m.id, makerClient := m.client, price := m.kind.price);
        OneLevel(levels[0].price, levels[0].orders);
        RestsSomewhere(levels, m);
      } else {
        var t := b[k - |a|];
        assert TradeNames(levels[1..], t);
        var m :| Resting(levels[1..], m) && m.kind.Limit?
                 && t == t.(makerId := m.id, makerClient := m.client, price := m.kind.price);
        RestsSomewhere(levels, m);
      }
    }
  }

  /** Every print of a sweep names an order that rested, at that order's price. */
  lemma {:induction false} SweepNames(policy: Policy, lot: nat, levels: seq<PriceLevel>, taker: Order,
                                      limit: Option<Price>, now: nat)
    requires lot > 0 && Conforming(policy, lot) && LevelsOnLots(levels, lot) && taker.remaining % lot == 0
    requires AllPriced(levels)
    ensures AllNamed(levels, Sweep(policy, lot, levels, taker, limit, now).trades)
    decreases |levels|
  {
    hide SweepLevel, Conforming, OnLots, Priced, TradeNames;
    if taker.remaining > 0 && levels != [] && Crosses(taker.side, levels[0].price, limit) {
      LevelNames(policy, lot, levels[0], taker, now);
      SweptOnLots(policy, lot, levels[0], taker, now);
      var swept := SweepLevel(policy, lot, levels[0], taker, now);
      var rest: seq<Trade> := [];
      if swept.orders == [] {
        SweepNames(policy, lot, levels[1..], taker.(remaining := swept.remaining), limit, now);
        rest := Sweep(policy, lot, levels[1..], taker.(remaining := swept.remaining), limit, now).trades;
      }
      NamedMore(levels, swept.trades, rest);
      assert swept.trades + [] == swept.trades;
    }
  }

  lemma NamedElsewhere(levels: seq<PriceLevel>, trades: seq<Trade>, id: ExchangeId)
    requires AllNamed(levels, trades) && id !in Ids(levels)
    ensures TradedWith(trades, id) == 0
  {
    forall k | 0 <= k < |trades|
      ensures trades[k].makerId != id
    {
      assert TradeNames(levels, trades[k]);
      var m :| Resting(levels, m) && m.kind.Limit?
               && trades[k] == trades[k].(makerId := m.id, makerClient := m.client, price := m.kind.price);
      RestingIsListed(levels, m);
    }
    TradedWithNobody(trades, id);
  }

  lemma CancelledElsewhere(removed: seq<Order>, ids: multiset<ExchangeId>, id: ExchangeId)
    requires IdBag(removed) <= ids && id !in ids
    ensures id !in IdsOf(removed)
  {
    if id in IdsOf(removed) {
      var k :| 0 <= k < |removed| && removed[k].id == id;
      IdIsCounted(removed, k);
    }
  }

  lemma Untouched(m: Order, client: ClientId, after: seq<PriceLevel>)
    requires Resting(after, m)
    ensures MakerTold(m, [], client, [], after)
  {}

  /** An order of the first level: nothing further on concerns it. */
  lemma ToldInHead(m: Order, here: seq<Trade>, more: seq<Trade>, client: ClientId, c: seq<ExchangeId>,
                   d: seq<ExchangeId>, price: Price, orders: seq<Order>, tail: seq<PriceLevel>)
    requires MakerTold(m, here, client, c, [PriceLevel(price, orders)])
    requires TradedWith(more, m.id) == 0 && m.id !in d && m.id !in Ids(tail)
    ensures MakerTold(m, here + more, client, c + d, if orders == [] then tail else [PriceLevel(price, orders)] + tail)
  {
    hide TradedWith, IdBag;
    TradedWithAppends(here, more, m.id);
    OneLevel(price, orders);
    var paid := TradedWith(here, m.id);
    RestsInHead(PriceLevel(price, orders), tail, m);
    if paid <= m.remaining {
      RestsInHead(PriceLevel(price, orders), tail, m.(remaining := m.remaining - paid));
    }
  }

  /** An order further on: nothing at the first level concerns it. */
  lemma ToldInTail(m: Order, here: seq<Trade>, more: seq<Trade>, client: ClientId, c: seq<ExchangeId>,
                   d: seq<ExchangeId>, price: Price, orders: seq<Order>, after: seq<PriceLevel>)
    requires MakerTold(m, more, client, d, after)
    requires TradedWith(here, m.id) == 0 && m.id !in c && m.id !in IdBag(orders)
    ensures MakerTold(m, here + more, client, c + d,
                      if orders == [] then after else [PriceLevel(price, orders)] + after)
  {
    hide TradedWith, IdBag;
    TradedWithAppends(here, more, m.id);
    var paid := TradedWith(more, m.id);
    RestsInHead(PriceLevel(price, orders), after, m);
    if paid <= m.remaining {
      RestsInHead(PriceLevel(price, orders), after, m.(remaining := m.remaining - paid));
    }
  }

  /** A whole sweep, as seen by any order of the side it went through. */
  lemma {:induction false} SweepMaker(spec: InstrumentSpec, policy: Policy, levels: seq<PriceLevel>, taker: Order,
                                      limit: Option<Price>, now: nat, m: Order)
    requires spec.lotSize > 0 && Conforming(policy, spec.lotSize) && LevelsOnLots(levels, spec.lotSize)
    requires taker.remaining % spec.lotSize == 0
    requires AllPriced(levels) && Distinct(Ids(levels)) && Resting(levels, m)
    ensures var r := Sweep(policy, spec.lotSize, levels, taker, limit, now);
            MakerTold(m, r.trades, taker.client, IdsOf(r.removed), r.levels)
    decreases |levels|
  {
    hide SweepLevel, Conforming, OnLots, Priced, MakerTold, IdsOf, Ids, IdBag, AllNamed, Distinct, Resting;
    if taker.remaining > 0 && levels != [] && Crosses(taker.side, levels[0].price, limit) {
      var swept := SweepLevel(policy, spec.lotSize, levels[0], taker, now);
      var next := taker.(remaining := swept.remaining);
      SweptOnLots(policy, spec.lotSize, levels[0], taker, now);
      HeadOfSweep(spec, policy, levels, taker, now);
      RestsSomewhere(levels, m);
      if swept.orders == [] {
        var rest := Sweep(policy, spec.lotSize, levels[1..], next, limit, now);
        SweepNames(policy, spec.lotSize, levels[1..], next, limit, now);
        SweepIds(spec, policy, levels[1..], next, limit, now);
        if Resting(levels[1..], m) {
          SweepMaker(spec, policy, levels[1..], next, limit, now, m);
        }
        OneMaker(spec, policy, levels, taker, now, m, rest.trades, rest.removed, rest.levels);
      } else {
        if Resting(levels[1..], m) {
          Untouched(m, taker.client, levels[1..]);
        }
        NothingFurther(levels[1..]);
        OneMaker(spec, policy, levels, taker, now, m, [], [], levels[1..]);
        assert swept.trades + [] == swept.trades && swept.removed + [] == swept.removed;
      }
    } else {
      Untouched(m, taker.client, levels);
      NothingFurther(levels);
    }
  }

  lemma NothingFurther(levels: seq<PriceLevel>)
    ensures AllNamed(levels, []) && Ids(levels) + IdBag([]) <= Ids(levels) && IdsOf([]) == []
  {}

  lemma HeadOfSweep(spec: InstrumentSpec, policy: Policy, levels: seq<PriceLevel>, taker: Order, now: nat)
    requires spec.lotSize > 0 && Conforming(policy, spec.lotSize) && taker.remaining % spec.lotSize == 0
    requires levels != [] && OnLots(levels[0].orders, spec.lotSize) && AllPriced(levels) && Distinct(Ids(levels))
    ensures var swept := SweepLevel(policy, spec.lotSize, levels[0], taker, now);
            && IdBag(swept.orders) + IdBag(swept.removed) <= IdBag(levels[0].orders)
            && AllNamed([levels[0]], swept.trades)
    ensures Distinct(Ids(levels[1..])) && Distinct(IdBag(levels[0].orders))
  {
    hide SweepLevel, Conforming, OnLots, IdBag, AllNamed;
    LevelSweptIds(spec, policy, levels[0], taker, now);
    LevelNames(policy, spec.lotSize, levels[0], taker, now);
    FewerIds(Ids(levels[1..]), Ids(levels));
    FewerIds(IdBag(levels[0].orders), Ids(levels));
  }

  /** The first level's sweep and what followed it, put together for one order. */
  lemma OneMaker(spec: InstrumentSpec, policy: Policy, levels: seq<PriceLevel>, taker: Order, now: nat, m: Order,
                 trades: seq<Trade>, removed: seq<Order>, after: seq<PriceLevel>)
    requires spec.lotSize > 0 && Conforming(policy, spec.lotSize) && taker.remaining % spec.lotSize == 0
    requires levels != [] && OnLots(levels[0].orders, spec.lotSize) && AllPriced(levels) && Distinct(Ids(levels))
    requires Resting(levels, m)
    requires AllNamed(levels[1..], trades) && Ids(after) + IdBag(removed) <= Ids(levels[1..])
    requires Resting(levels[1..], m) ==> MakerTold(m, trades, taker.client, IdsOf(removed), after)
    ensures var swept := SweepLevel(policy, spec.lotSize, levels[0], taker, now);
            MakerTold(m, swept.trades + trades, taker.client, IdsOf(swept.removed + removed),
                      if swept.orders == [] then after else [PriceLevel(levels[0].price, swept.orders)] + after)
  {
    hide SweepLevel, Conforming, OnLots, Priced, MakerTold, IdBag, AllNamed, TradedWith, Distinct, Ids, Resting;
    var swept := SweepLevel(policy, spec.lotSize, levels[0], taker, now);
    HeadOfSweep(spec, policy, levels, taker, now);
    RestsSomewhere(levels, m);
    IdsJoin(swept.removed, removed);
    OneLevel(levels[0].price, levels[0].orders);
    if m in levels[0].orders {
      InOrders(levels[0].orders, m);
      OnlyInHead(levels, m.id);
      LevelMaker(policy, spec.lotSize, levels[0], taker, now, m);
      NamedElsewhere(levels[1..], trades, m.id);
      CancelledElsewhere(removed, Ids(levels[1..]), m.id);
      ToldInHead(m, swept.trades, trades, taker.client, IdsOf(swept.removed), IdsOf(removed), levels[0].price,
                 swept.orders, after);
    } else {
      RestingIsListed(levels[1..], m);
      if m.id in IdBag(levels[0].orders) {
        OnlyInHead(levels, m.id);
      }
      NamedElsewhere([levels[0]], swept.trades, m.id);
      CancelledElsewhere(swept.removed, IdBag(levels[0].orders), m.id);
      ToldInTail(m, swept.trades, trades, taker.client, IdsOf(swept.removed), IdsOf(removed), levels[0].price,
                 swept.orders, after);
    }
  }

  lemma IdsJoin(a: seq<Order>, b: seq<Order>)
    ensures IdsOf(a + b) == IdsOf(a) + IdsOf(b)
  {}

  // ------------------------------------------- what is new, what is cancelled

  /** An order there came from one that was there, with more remaining. */
  ghost predicate CameFrom(levels: seq<PriceLevel>, o: Order) {
    exists m :: Resting(levels, m) && o == m.(remaining := o.remaining) && o.remaining <= m.remaining
  }

  lemma CameFromItself(levels: seq<PriceLevel>, o: Order)
    requires Resting(levels, o)
    ensures CameFrom(levels, o)
  {
    assert o == o.(remaining := o.remaining);
  }

  lemma LevelBrings(policy: Policy, lot: nat, level: PriceLevel, taker: Order, now: nat, o: Order)
    requires lot > 0 && Conforming(policy, lot) && OnLots(level.orders, lot) && taker.remaining % lot == 0
    requires o in SweepLevel(policy, lot, level, taker, now).orders
    ensures exists m :: m in level.orders && o == m.(remaining := o.remaining) && o.remaining <= m.remaining
  {
    hide Conforming, Foreign, Own, Settle, OnLots;
    var foreign := Foreign(level.orders, taker.client);
    ForeignOnLots(level.orders, taker.client, lot);
    PolicyApplied(policy, lot, taker.remaining, foreign, now);
    SettledFrom(foreign, Shares(policy(taker.remaining, MakersOf(foreign), now), |foreign|), o);
    var m :| m in foreign && o == m.(remaining := o.remaining) && o.remaining <= m.remaining;
    ForeignAt(level.orders, taker.client, m);
  }

  /** A sweep brings nothing new to the side. */
  lemma {:induction false} SweepBrings(policy: Policy, lot: nat, levels: seq<PriceLevel>, taker: Order,
                                       limit: Option<Price>, now: nat, o: Order)
    requires lot > 0 && Conforming(policy, lot) && LevelsOnLots(levels, lot) && taker.remaining % lot == 0
    requires Resting(Sweep(policy, lot, levels, taker, limit, now).levels, o)
    ensures CameFrom(levels, o)
    decreases |levels|
  {
    hide SweepLevel, Conforming, OnLots, Resting;
    if taker.remaining > 0 && levels != [] && Crosses(taker.side, levels[0].price, limit) {
      SweptOnLots(policy, lot, levels[0], taker, now);
      var swept := SweepLevel(policy, lot, levels[0], taker, now);
      if swept.orders == [] {
        SweepBrings(policy, lot, levels[1..], taker.(remaining := swept.remaining), limit, now, o);
        var m :| Resting(levels[1..], m) && o == m.(remaining := o.remaining) && o.remaining <= m.remaining;
        RestsSomewhere(levels, m);
      } else {
        var after := [PriceLevel(levels[0].price, swept.orders)] + levels[1..];
        assert after[1..] == levels[1..];
        RestsSomewhere(after, o);
        if o in swept.orders {
          LevelBrings(policy, lot, levels[0], taker, now, o);
          var m :| m in levels[0].orders && o == m.(remaining := o.remaining) && o.remaining <= m.remaining;
          RestsSomewhere(levels, m);
        } else {
          RestsSomewhere(levels, o);
          CameFromItself(levels, o);
        }
      }
    } else {
      CameFromItself(levels, o);
    }
  }

  ghost predicate AllRested(levels: seq<PriceLevel>, orders: seq<Order>) {
    forall k :: 0 <= k < |orders| ==> Resting(levels, orders[k])
  }

  /** Whatever a sweep cancels had rested there. */
  lemma {:induction false} SweepCancels(policy: Policy, lot: nat, levels: seq<PriceLevel>, taker: Order,
                                        limit: Option<Price>, now: nat)
    requires lot > 0 && Conforming(policy, lot) && LevelsOnLots(levels, lot) && taker.remaining % lot == 0
    ensures AllRested(levels, Sweep(policy, lot, levels, taker, limit, now).removed)
    decreases |levels|
  {
    hide SweepLevel, Conforming, OnLots, Resting;
    if taker.remaining > 0 && levels != [] && Crosses(taker.side, levels[0].price, limit) {
      SweptOnLots(policy, lot, levels[0], taker, now);
      var swept := SweepLevel(policy, lot, levels[0], taker, now);
      var rest: seq<Order> := [];
      if swept.orders == [] {
        SweepCancels(policy, lot, levels[1..], taker.(remaining := swept.remaining), limit, now);
        rest := Sweep(policy, lot, levels[1..], taker.(remaining := swept.remaining), limit, now).removed;
      }
      assert swept.removed + [] == swept.removed;
      forall k | 0 <= k < |swept.removed + rest|
        ensures Resting(levels, (swept.removed + rest)[k])
      {
        RestsSomewhere(levels, (swept.removed + rest)[k]);
        if k < |swept.removed| {
          LevelCancels(policy, lot, levels[0], taker, now, k);
        } else {
          assert Resting(levels[1..], rest[k - |swept.removed|]);
        }
      }
    }
  }

  lemma LevelCancels(policy: Policy, lot: nat, level: PriceLevel, taker: Order, now: nat, k: nat)
    requires lot > 0 && Conforming(policy, lot) && OnLots(level.orders, lot) && taker.remaining % lot == 0
    requires k < |SweepLevel(policy, lot, level, taker, now).removed|
    ensures SweepLevel(policy, lot, level, taker, now).removed[k] in level.orders
  {
    hide Conforming, Foreign, Own, Settle, OnLots;
    var m := Own(level.orders, taker.client)[k];
    assert m in Own(level.orders, taker.client);
    ForeignAt(level.orders, taker.client, m);
  }

  /** An order of this client rested, and does not any more. */
  ghost predicate OwnGone(before: seq<PriceLevel>, after: seq<PriceLevel>, client: ClientId, id: ExchangeId) {
    exists m :: Resting(before, m) && m.id == id && m.client == client && id !in Ids(after)
  }

  ghost predicate NoneTwice(ids: seq<ExchangeId>) {
    forall i, j :: 0 <= i < j < |ids| ==> ids[i] != ids[j]
  }

  /** A sweep cancels exactly the client's own orders that it takes away, each once. */
  lemma SweepCancelsExactly(spec: InstrumentSpec, policy: Policy, levels: seq<PriceLevel>, taker: Order,
                            limit: Option<Price>, now: nat, id: ExchangeId)
    requires spec.lotSize > 0 && Conforming(policy, spec.lotSize) && LevelsOnLots(levels, spec.lotSize)
    requires taker.remaining % spec.lotSize == 0 && AllPriced(levels) && Distinct(Ids(levels))
    ensures var r := Sweep(policy, spec.lotSize, levels, taker, limit, now);
            && NoneTwice(IdsOf(r.removed))
            && (id in IdsOf(r.removed) <==> OwnGone(levels, r.levels, taker.client, id))
  {
    hide Sweep, Conforming, LevelsOnLots, Resting, Ids, IdBag, AllPriced, Distinct, TradedWith;
    var r := Sweep(policy, spec.lotSize, levels, taker, limit, now);
    SweepIds(spec, policy, levels, taker, limit, now);
    FewerIds(IdBag(r.removed), Ids(levels));
    OnceFromBag(r.removed);
    if id in IdsOf(r.removed) {
      var k :| 0 <= k < |r.removed| && r.removed[k].id == id;
      SweepCancels(policy, spec.lotSize, levels, taker, limit, now);
      NoSelfTrades(spec, policy, levels, taker, limit, now);
      SweepMaker(spec, policy, levels, taker, limit, now, r.removed[k]);
    }
    if OwnGone(levels, r.levels, taker.client, id) {
      var m :| Resting(levels, m) && m.id == id && m.client == taker.client && id !in Ids(r.levels);
      SweepMaker(spec, policy, levels, taker, limit, now, m);
      if m.id !in IdsOf(r.removed) {
        RestingIsListed(r.levels, m);
      }
    }
  }
}
