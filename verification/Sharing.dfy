/** Who is paid what, and in which order it is printed: price first, then what the
    policy says to the queue as it stands, then time. */
module Sharing {
  import opened Sums
  import opened Wrappers
  import opened Instrument
  import opened Allocation
  import opened Orders
  import opened Book
  import opened SweepFacts
  import opened LevelFacts
  import opened Prints

  // ------------------------------------------------------- the order of prints

  ghost predicate IsMaker(levels: seq<PriceLevel>, m: Order, t: Trade) {
    Resting(levels, m) && m.id == t.makerId
  }

  /** At one price, prints name makers oldest first, and so none twice. */
  ghost predicate InLine(levels: seq<PriceLevel>, trades: seq<Trade>) {
    forall i, j, m, n :: 0 <= i < j < |trades| && IsMaker(levels, m, trades[i]) && IsMaker(levels, n, trades[j]) ==>
      trades[i].price == trades[j].price ==> m.arrival < n.arrival
  }

  lemma SameId(orders: seq<Order>, m: Order, n: Order)
    requires OncePerOrder(orders) && m in orders && n in orders && m.id == n.id
    ensures m == n
  {}

  lemma LevelInLine(spec: InstrumentSpec, policy: Policy, side: Side, bound: nat, level: PriceLevel, taker: Order,
                    now: nat)
    requires spec.lotSize > 0 && Conforming(policy, spec.lotSize) && taker.remaining % spec.lotSize == 0
    requires QueueOk(spec, side, level.price, bound, level.orders) && OnLots(level.orders, spec.lotSize)
    requires Distinct(IdBag(level.orders))
    ensures InLine([level], SweepLevel(policy, spec.lotSize, level, taker, now).trades)
  {
    hide Conforming, Foreign, Own, Settle, OnLots, IdBag;
    var foreign := Foreign(level.orders, taker.client);
    ForeignOnLots(level.orders, taker.client, spec.lotSize);
    PolicyApplied(policy, spec.lotSize, taker.remaining, foreign, now);
    ForeignQueue(spec, side, level.price, bound, level.orders, taker.client);
    OneLevel(level.price, level.orders);
    OnceFromBag(level.orders);
    var fills := policy(taker.remaining, MakersOf(foreign), now);
    var trades := TradesOf(level.price, foreign, fills, taker);
    forall i, j, m, n | 0 <= i < j < |trades| && IsMaker([level], m, trades[i]) && IsMaker([level], n, trades[j])
      ensures m.arrival < n.arrival
    {
      ForeignAt(level.orders, taker.client, foreign[fills[i].index]);
      ForeignAt(level.orders, taker.client, foreign[fills[j].index]);
      SameId(level.orders, m, foreign[fills[i].index]);
      SameId(level.orders, n, foreign[fills[j].index]);
    }
  }

  /** Whose id rests at the head is at the head itself. */
  lemma HeadHolds(levels: seq<PriceLevel>, m: Order, id: ExchangeId)
    requires levels != [] && Distinct(Ids(levels)) && Resting(levels, m) && m.id == id
    ensures id in IdBag(levels[0].orders) ==> Resting([levels[0]], m)
    ensures id in Ids(levels[1..]) ==> Resting(levels[1..], m)
  {
    hide Resting;
    RestsSomewhere(levels, m);
    OneLevel(levels[0].price, levels[0].orders);
    if id in IdBag(levels[0].orders) {
      OnlyInHead(levels, id);
      if Resting(levels[1..], m) {
        RestingIsListed(levels[1..], m);
      }
    } else if m in levels[0].orders {
      InOrders(levels[0].orders, m);
    }
    if id in Ids(levels[1..]) && id in IdBag(levels[0].orders) {
      OnlyInHead(levels, id);
    }
  }

  lemma HeadMakes(levels: seq<PriceLevel>, trades: seq<Trade>, k: nat, m: Order)
    requires levels != [] && Distinct(Ids(levels)) && AllNamed([levels[0]], trades) && Priced(levels[0])
    requires k < |trades| && IsMaker(levels, m, trades[k])
    ensures trades[k].price == levels[0].price && IsMaker([levels[0]], m, trades[k])
  {
    hide Resting, Ids;
    assert TradeNames([levels[0]], trades[k]);
    var o :| Resting([levels[0]], o) && o.kind.Limit?
             && trades[k] == trades[k].(makerId := o.id, makerClient := o.client, price := o.kind.price);
    OneLevel(levels[0].price, levels[0].orders);
    InOrders(levels[0].orders, o);
    HeadHolds(levels, m, o.id);
  }

  lemma TailMakes(levels: seq<PriceLevel>, trades: seq<Trade>, k: nat, m: Order)
    requires levels != [] && Distinct(Ids(levels)) && AllNamed(levels[1..], trades) && AllPriced(levels)
    requires k < |trades| && IsMaker(levels, m, trades[k])
    ensures IsMaker(levels[1..], m, trades[k])
    ensures exists i :: 0 < i < |levels| && trades[k].price == levels[i].price
  {
    hide Ids;
    assert TradeNames(levels[1..], trades[k]);
    var o :| Resting(levels[1..], o) && o.kind.Limit?
             && trades[k] == trades[k].(makerId := o.id, makerClient := o.client, price := o.kind.price);
    RestingIsListed(levels[1..], o);
    HeadHolds(levels, m, o.id);
    var i :| 0 <= i < |levels[1..]| && o in levels[1..][i].orders;
    assert Priced(levels[i + 1]);
  }

  lemma InLineOnwards(ascending: bool, levels: seq<PriceLevel>, here: seq<Trade>, more: seq<Trade>)
    requires levels != [] && Distinct(Ids(levels)) && AllPriced(levels) && Sorted(ascending, levels)
    requires AllNamed([levels[0]], here) && AllNamed(levels[1..], more)
    requires InLine([levels[0]], here) && InLine(levels[1..], more)
    ensures InLine(levels, here + more)
  {
    hide IsMaker, AllNamed, Priced, Ids;
    var trades := here + more;
    forall i, j, m, n | 0 <= i < j < |trades| && IsMaker(levels, m, trades[i]) && IsMaker(levels, n, trades[j])
      ensures trades[i].price == trades[j].price ==> m.arrival < n.arrival
    {
      if j < |here| {
        HeadMakes(levels, here, i, m);
        HeadMakes(levels, here, j, n);
      } else {
        TailMakes(levels, more, j - |here|, n);
        if i < |here| {
          HeadMakes(levels, here, i, m);
        } else {
          TailMakes(levels, more, i - |here|, m);
        }
      }
    }
  }

  /** A whole sweep prints in line. */
  lemma {:induction false} SweepInLine(spec: InstrumentSpec, policy: Policy, side: Side, bound: nat,
                                       levels: seq<PriceLevel>, taker: Order, limit: Option<Price>, now: nat)
    requires spec.lotSize > 0 && Conforming(policy, spec.lotSize) && taker.remaining % spec.lotSize == 0
    requires LevelsOnLots(levels, spec.lotSize) && SideOk(spec, side, bound, levels) && AllPriced(levels)
    requires Distinct(Ids(levels))
    ensures InLine(levels, Sweep(policy, spec.lotSize, levels, taker, limit, now).trades)
    decreases |levels|
  {
    hide SweepLevel, Conforming, OnLots, Priced, InLine, Distinct, Ids, AllNamed, LevelOk;
    if taker.remaining > 0 && levels != [] && Crosses(taker.side, levels[0].price, limit) {
      var swept, more := SweepLevel(policy, spec.lotSize, levels[0], taker, now), [];
      SweptOnLots(policy, spec.lotSize, levels[0], taker, now);
      HeadOfSweep(spec, policy, levels, taker, now);
      SideTail(spec, side, bound, levels);
      HeadIsOk(spec, side, bound, levels);
      LevelInLine(spec, policy, side, bound, levels[0], taker, now);
      NothingInLine(levels[1..]);
      if swept.orders == [] {
        var next := taker.(remaining := swept.remaining);
        SweepInLine(spec, policy, side, bound, levels[1..], next, limit, now);
        SweepNames(policy, spec.lotSize, levels[1..], next, limit, now);
        more := Sweep(policy, spec.lotSize, levels[1..], next, limit, now).trades;
      }
      InLineOnwards(RestsAscending(side), levels, swept.trades, more);
      assert swept.trades + [] == swept.trades;
    } else {
      NothingInLine(levels);
    }
  }

  lemma NothingInLine(levels: seq<PriceLevel>)
    ensures InLine(levels, []) && AllNamed(levels, [])
  {}

  lemma HeadIsOk(spec: InstrumentSpec, side: Side, bound: nat, levels: seq<PriceLevel>)
    requires spec.lotSize > 0 && SideOk(spec, side, bound, levels) && levels != []
    ensures QueueOk(spec, side, levels[0].price, bound, levels[0].orders)
  {
    assert LevelOk(spec, side, bound, levels[0]);
  }

  // --------------------------------------------------------- who is paid what

  /** What other clients have ahead of a level. */
  function Ahead(levels: seq<PriceLevel>, client: ClientId, i: nat): nat
    requires i <= |levels|
  {
    if i == 0 then 0 else Ahead(levels, client, i - 1) + Quantity(Foreign(levels[i - 1].orders, client))
  }

  lemma {:induction false} AheadFromHead(levels: seq<PriceLevel>, client: ClientId, i: nat)
    requires 0 < i <= |levels|
    ensures Ahead(levels, client, i) == Quantity(Foreign(levels[0].orders, client)) + Ahead(levels[1..], client, i - 1)
  {
    hide Quantity, Foreign;
    if i > 1 {
      AheadFromHead(levels, client, i - 1);
    }
  }

  /** A policy is told what each order still has and when it came, oldest first. */
  ghost predicate SeenAs(orders: seq<Order>, makers: seq<Maker>) {
    && |makers| == |orders|
    && forall k :: 0 <= k < |orders| ==> makers[k] == Maker(orders[k].remaining, orders[k].arrival)
  }

  lemma LevelPays(policy: Policy, lot: nat, level: PriceLevel, taker: Order, now: nat, others: seq<Order>,
                  makers: seq<Maker>, j: nat)
    requires lot > 0 && Conforming(policy, lot) && OnLots(level.orders, lot) && taker.remaining % lot == 0
    requires Distinct(IdBag(level.orders))
    requires others == Foreign(level.orders, taker.client) && SeenAs(others, makers) && j < |others|
    ensures TradedWith(SweepLevel(policy, lot, level, taker, now).trades, others[j].id) ==
            ShareOf(policy(taker.remaining, makers, now), j)
  {
    hide Conforming, Foreign, Own, Settle, OnLots, TradesOf, ShareOf, TradedWith, IdBag;
    ForeignOnLots(level.orders, taker.client, lot);
    PolicyApplied(policy, lot, taker.remaining, others, now);
    OnceForeign(level.orders, taker.client);
    assert makers == MakersOf(others);
    TradedWithIsShare(level.price, others, policy(taker.remaining, makers, now), taker, j);
  }

  lemma HeadPays(spec: InstrumentSpec, policy: Policy, levels: seq<PriceLevel>, taker: Order, now: nat,
                 others: seq<Order>, makers: seq<Maker>, j: nat, more: seq<Trade>)
    requires spec.lotSize > 0 && Conforming(policy, spec.lotSize) && taker.remaining % spec.lotSize == 0
    requires levels != [] && OnLots(levels[0].orders, spec.lotSize) && AllPriced(levels) && Distinct(Ids(levels))
    requires others == Foreign(levels[0].orders, taker.client) && SeenAs(others, makers) && j < |others|
    requires AllNamed(levels[1..], more)
    ensures TradedWith(SweepLevel(policy, spec.lotSize, levels[0], taker, now).trades + more, others[j].id) ==
            ShareOf(policy(taker.remaining, makers, now), j)
  {
    hide SweepLevel, Conforming, OnLots, Priced, AllNamed, ShareOf, Foreign, SeenAs, IdBag, Ids, TradedWith;
    HeadOfSweep(spec, policy, levels, taker, now);
    LevelPays(policy, spec.lotSize, levels[0], taker, now, others, makers, j);
    ForeignAt(levels[0].orders, taker.client, others[j]);
    InOrders(levels[0].orders, others[j]);
    OnlyInHead(levels, others[j].id);
    NamedElsewhere(levels[1..], more, others[j].id);
    TradedWithAppends(SweepLevel(policy, spec.lotSize, levels[0], taker, now).trades, more, others[j].id);
  }

  /** Nothing the head prints is with anybody further on. */
  lemma HeadPaysNobodyElse(spec: InstrumentSpec, policy: Policy, levels: seq<PriceLevel>, taker: Order, now: nat,
                           m: Order, more: seq<Trade>)
    requires spec.lotSize > 0 && Conforming(policy, spec.lotSize) && taker.remaining % spec.lotSize == 0
    requires levels != [] && OnLots(levels[0].orders, spec.lotSize) && AllPriced(levels) && Distinct(Ids(levels))
    requires Resting(levels[1..], m)
    ensures TradedWith(SweepLevel(policy, spec.lotSize, levels[0], taker, now).trades + more, m.id) ==
            TradedWith(more, m.id)
  {
    hide SweepLevel, Conforming, OnLots, Priced, AllNamed, IdBag, Ids, TradedWith, Resting;
    HeadOfSweep(spec, policy, levels, taker, now);
    RestingIsListed(levels[1..], m);
    if m.id in IdBag(levels[0].orders) {
      OnlyInHead(levels, m.id);
    }
    OneLevel(levels[0].price, levels[0].orders);
    NamedElsewhere([levels[0]], SweepLevel(policy, spec.lotSize, levels[0], taker, now).trades, m.id);
    TradedWithAppends(SweepLevel(policy, spec.lotSize, levels[0], taker, now).trades, more, m.id);
  }

  /** A sweep that begins is its first level and, if that drains, the rest. */
  lemma SweepSplits(spec: InstrumentSpec, policy: Policy, side: Side, bound: nat, levels: seq<PriceLevel>, taker: Order,
                    limit: Option<Price>, now: nat) returns (next: Order, more: seq<Trade>)
    requires spec.lotSize > 0 && Conforming(policy, spec.lotSize) && taker.remaining % spec.lotSize == 0
    requires LevelsOnLots(levels, spec.lotSize) && SideOk(spec, side, bound, levels) && SideStocked(levels)
    requires AllPriced(levels) && levels != [] && taker.remaining > 0 && Crosses(taker.side, levels[0].price, limit)
    ensures OnLots(levels[0].orders, spec.lotSize) && LevelsOnLots(levels[1..], spec.lotSize)
    ensures SideOk(spec, side, bound, levels[1..]) && SideStocked(levels[1..]) && AllPriced(levels[1..])
    ensures AllNamed(levels[1..], more)
    ensures Sweep(policy, spec.lotSize, levels, taker, limit, now).trades ==
            SweepLevel(policy, spec.lotSize, levels[0], taker, now).trades + more
    ensures var there := Quantity(Foreign(levels[0].orders, taker.client));
            && next == taker.(remaining := taker.remaining - Min(taker.remaining, there))
            && next.remaining % spec.lotSize == 0
            && more == if there <= taker.remaining
                       then Sweep(policy, spec.lotSize, levels[1..], next, limit, now).trades else []
  {
    hide SweepLevel, Conforming, OnLots, Priced, AllNamed, LevelOk, Foreign, Quantity, SideStocked, AllPriced;
    var swept := SweepLevel(policy, spec.lotSize, levels[0], taker, now);
    next, more := taker.(remaining := swept.remaining), [];
    SweptOnLots(policy, spec.lotSize, levels[0], taker, now);
    HeadSwept(spec, policy, side, bound, levels, taker, now);
    TailPriced(levels);
    NothingInLine(levels[1..]);
    if swept.orders == [] {
      SweepNames(policy, spec.lotSize, levels[1..], next, limit, now);
      more := Sweep(policy, spec.lotSize, levels[1..], next, limit, now).trades;
    }
    assert swept.trades + [] == swept.trades;
  }

  /** Price first, then the policy. A maker gets what the policy gives its place in
      the queue of the others at its price, out of what the taker has left after
      everybody at better prices; beyond the limit, or past the taker's end, it gets
      nothing. */
  lemma {:induction false} SweepPays(spec: InstrumentSpec, policy: Policy, side: Side, bound: nat,
                                     levels: seq<PriceLevel>, taker: Order, limit: Option<Price>, now: nat,
                                     i: nat, others: seq<Order>, makers: seq<Maker>, j: nat)
    requires spec.lotSize > 0 && Conforming(policy, spec.lotSize) && taker.remaining % spec.lotSize == 0
    requires LevelsOnLots(levels, spec.lotSize) && SideOk(spec, side, bound, levels) && side != taker.side
    requires SideStocked(levels) && AllPriced(levels) && Distinct(Ids(levels))
    requires i < |levels| && others == Foreign(levels[i].orders, taker.client) && SeenAs(others, makers) && j < |others|
    ensures TradedWith(Sweep(policy, spec.lotSize, levels, taker, limit, now).trades, others[j].id) ==
            if Honours(taker.side, levels[i].price, limit) && Ahead(levels, taker.client, i) < taker.remaining then
              ShareOf(policy(taker.remaining - Ahead(levels, taker.client, i), makers, now), j)
            else 0
    decreases i
  {
    hide SweepLevel, Conforming, OnLots, Distinct, Ids, AllNamed, SeenAs, Foreign, Quantity, TradedWith, ShareOf,
      SideStocked, AllPriced, Sweep, LevelsOnLots, SideOk, Resting;
    if !Crosses(taker.side, levels[0].price, limit) {
      NothingBehind(spec, side, bound, levels, i, taker.side, limit);
    }
    NothingTraded(others[j].id);
    if taker.remaining == 0 || !Crosses(taker.side, levels[0].price, limit) {
      SweepRefuses(policy, spec.lotSize, levels, taker, limit, now);
    } else {
      var next, more := SweepSplits(spec, policy, side, bound, levels, taker, limit, now);
      if i == 0 {
        HeadPays(spec, policy, levels, taker, now, others, makers, j, more);
      } else {
        AheadFromHead(levels, taker.client, i);
        RestsBehind(levels, i, taker.client, others, j);
        HeadPaysNobodyElse(spec, policy, levels, taker, now, others[j], more);
        TailDistinct(levels);
        if Quantity(Foreign(levels[0].orders, taker.client)) <= taker.remaining {
          SweepPays(spec, policy, side, bound, levels[1..], next, limit, now, i - 1, others, makers, j);
        }
      }
    }
  }

  lemma SweepRefuses(policy: Policy, lot: nat, levels: seq<PriceLevel>, taker: Order, limit: Option<Price>, now: nat)
    requires lot > 0 && Conforming(policy, lot) && LevelsOnLots(levels, lot) && taker.remaining % lot == 0
    requires taker.remaining == 0 || levels == [] || !Crosses(taker.side, levels[0].price, limit)
    ensures Sweep(policy, lot, levels, taker, limit, now).trades == []
  {}

  lemma NothingTraded(id: ExchangeId)
    ensures TradedWith([], id) == 0
  {}

  lemma TailPriced(levels: seq<PriceLevel>)
    requires levels != [] && AllPriced(levels)
    ensures AllPriced(levels[1..]) && Priced(levels[0])
  {}

  lemma RestsBehind(levels: seq<PriceLevel>, i: nat, client: ClientId, others: seq<Order>, j: nat)
    requires 0 < i < |levels| && others == Foreign(levels[i].orders, client) && j < |others|
    ensures Resting(levels[1..], others[j])
  {
    ForeignAt(levels[i].orders, client, others[j]);
    assert levels[1..][i - 1] == levels[i];
  }

  /** Behind a price out of reach, everything is. */
  lemma NothingBehind(spec: InstrumentSpec, side: Side, bound: nat, levels: seq<PriceLevel>, i: nat, taker: Side,
                      limit: Option<Price>)
    requires spec.lotSize > 0 && SideOk(spec, side, bound, levels) && side != taker && i < |levels|
    requires !Crosses(taker, levels[0].price, limit)
    ensures !Honours(taker, levels[i].price, limit)
  {
    assert i == 0 || Before(RestsAscending(side), levels[0].price, levels[i].price);
  }
}
