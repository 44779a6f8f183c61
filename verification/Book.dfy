/** The book as callers see it — price levels best first, stop books nearest to
    firing first — and every operation on it as a function. */
module Book {
  import opened Sums
  import opened Wrappers
  import opened Instrument
  import opened Allocation
  import opened Orders

  /** One price (or one trigger) and its queue, oldest first. */
  datatype PriceLevel = PriceLevel(price: Price, orders: seq<Order>)

  datatype Book = Book(
    bids: seq<PriceLevel>,
    asks: seq<PriceLevel>,
    stopBids: seq<PriceLevel>,
    stopAsks: seq<PriceLevel>,
    last: Option<Price>,
    nextSeq: nat,
    nextArrival: nat)
  {
    function Levels(side: Side): seq<PriceLevel> {
      if side == Bid then bids else asks
    }

    function WithLevels(side: Side, levels: seq<PriceLevel>): Book {
      if side == Bid then this.(bids := levels) else this.(asks := levels)
    }

    function Stops(side: Side): seq<PriceLevel> {
      if side == Bid then stopBids else stopAsks
    }

    function WithStops(side: Side, stops: seq<PriceLevel>): Book {
      if side == Bid then this.(stopBids := stops) else this.(stopAsks := stops)
    }
  }

  const EMPTY := Book([], [], [], [], None, 1, 1)

  /** The instrument and the allocation policy a book is built for. */
  datatype Venue = Venue(spec: InstrumentSpec, policy: Policy) {
    ghost predicate Valid() {
      spec.Valid() && Conforming(policy, spec.lotSize)
    }
  }

  // ---------------------------------------------------------------- levels

  /** Resting asks and buy stops ascend; resting bids and sell stops descend. */
  predicate RestsAscending(side: Side) {
    side == Ask
  }

  predicate StopsAscending(side: Side) {
    side == Bid
  }

  predicate Before(ascending: bool, p: Price, q: Price) {
    if ascending then p < q else p > q
  }

  function Insert(ascending: bool, levels: seq<PriceLevel>, price: Price, order: Order): seq<PriceLevel> {
    if levels == [] then [PriceLevel(price, [order])]
    else if levels[0].price == price then [PriceLevel(price, levels[0].orders + [order])] + levels[1..]
    else if Before(ascending, price, levels[0].price) then [PriceLevel(price, [order])] + levels
    else [levels[0]] + Insert(ascending, levels[1..], price, order)
  }

  /** Every order with this id unlinked, emptied levels gone. */
  function Unlink(levels: seq<PriceLevel>, id: ExchangeId): seq<PriceLevel> {
    if levels == [] then []
    else
      var rest := Unlink(levels[1..], id);
      var orders := Without(levels[0].orders, id);
      if orders == [] then rest else [PriceLevel(levels[0].price, orders)] + rest
  }

  ghost function IdBag(orders: seq<Order>): multiset<ExchangeId> {
    if orders == [] then multiset{} else IdBag(orders[..|orders| - 1]) + multiset{orders[|orders| - 1].id}
  }

  ghost function Ids(levels: seq<PriceLevel>): multiset<ExchangeId> {
    if levels == [] then multiset{} else IdBag(levels[0].orders) + Ids(levels[1..])
  }

  ghost function StopIds(b: Book): multiset<ExchangeId> {
    Ids(b.stopBids) + Ids(b.stopAsks)
  }

  /** Ids of everything alive: resting orders and parked stops. */
  ghost function LiveIds(b: Book): multiset<ExchangeId> {
    Ids(b.bids) + Ids(b.asks) + StopIds(b)
  }

  function Depth(levels: seq<PriceLevel>): nat {
    if levels == [] then 0 else Quantity(levels[0].orders) + Depth(levels[1..])
  }

  // ----------------------------------------------------------------- sweep

  ghost predicate OnLots(orders: seq<Order>, lot: nat)
    requires lot > 0
  {
    forall i :: 0 <= i < |orders| ==> orders[i].remaining % lot == 0
  }

  ghost predicate LevelsOnLots(levels: seq<PriceLevel>, lot: nat)
    requires lot > 0
  {
    forall i :: 0 <= i < |levels| ==> OnLots(levels[i].orders, lot)
  }

  predicate Crosses(taker: Side, price: Price, limit: Option<Price>) {
    match limit
    case None => true
    case Some(bound) => if taker == Bid then price <= bound else price >= bound
  }

  /** What one level looks like after a taker has been through it. */
  datatype LevelSweep = LevelSweep(orders: seq<Order>, remaining: nat, trades: seq<Trade>, removed: seq<Order>)

  /** What one side looks like after a taker has been through it; `removed` are
      the taker's own orders, cancelled to prevent self-trading. */
  datatype SweepResult = SweepResult(levels: seq<PriceLevel>, remaining: nat, trades: seq<Trade>, removed: seq<Order>)

  lemma {:induction false} ForeignOnLots(orders: seq<Order>, client: ClientId, lot: nat)
    requires lot > 0 && OnLots(orders, lot)
    ensures OnLots(Foreign(orders, client), lot)
  {
    if orders != [] {
      ForeignOnLots(orders[..|orders| - 1], client, lot);
    }
  }

  /** What the contract says about the fills for one level. */
  lemma PolicyApplied(policy: Policy, lot: nat, available: nat, orders: seq<Order>, now: nat)
    requires lot > 0 && Conforming(policy, lot) && OnLots(orders, lot) && available % lot == 0
    ensures var fills := policy(available, MakersOf(orders), now);
            var shares := Shares(fills, |orders|);
            && Contract(available, MakersOf(orders), fills, lot)
            && (forall i :: 0 <= i < |orders| ==> shares[i] <= orders[i].remaining && shares[i] % lot == 0)
            && Sum(shares) == Sum(Quantities(fills)) == Min(available, Quantity(orders))
  {
    var makers := MakersOf(orders);
    var fills := policy(available, makers, now);
    assert OnGrid(Sizes(makers), lot);
    SharesConserve(fills, |orders|);
    QuantityIsTotal(orders);
    SharesFit(available, makers, fills, lot);
  }

  ghost function SweepLevel(policy: Policy, lot: nat, level: PriceLevel, taker: Order, now: nat): LevelSweep
    requires lot > 0 && Conforming(policy, lot) && OnLots(level.orders, lot) && taker.remaining % lot == 0
  {
    ForeignOnLots(level.orders, taker.client, lot);
    var foreign := Foreign(level.orders, taker.client);
    PolicyApplied(policy, lot, taker.remaining, foreign, now);
    var fills := policy(taker.remaining, MakersOf(foreign), now);
    LevelSweep(
      Settle(foreign, Shares(fills, |foreign|)),
      taker.remaining - Sum(Quantities(fills)),
      TradesOf(level.price, foreign, fills, taker),
      Own(level.orders, taker.client))
  }

  /** Walk the opposite side best price first while it crosses the limit; a level
      that survives ends the walk. */
  ghost function Sweep(policy: Policy, lot: nat, levels: seq<PriceLevel>, taker: Order, limit: Option<Price>,
                       now: nat): SweepResult
    requires lot > 0 && Conforming(policy, lot) && LevelsOnLots(levels, lot) && taker.remaining % lot == 0
    decreases |levels|
  {
    if taker.remaining == 0 || levels == [] || !Crosses(taker.side, levels[0].price, limit) then
      SweepResult(levels, taker.remaining, [], [])
    else
      var swept := SweepLevel(policy, lot, levels[0], taker, now);
      SweptOnLots(policy, lot, levels[0], taker, now);
      if swept.orders == [] then
        var rest := Sweep(policy, lot, levels[1..], taker.(remaining := swept.remaining), limit, now);
        SweepResult(rest.levels, rest.remaining, swept.trades + rest.trades, swept.removed + rest.removed)
      else
        SweepResult([PriceLevel(levels[0].price, swept.orders)] + levels[1..], swept.remaining, swept.trades,
                    swept.removed)
  }

  lemma SweptOnLots(policy: Policy, lot: nat, level: PriceLevel, taker: Order, now: nat)
    requires lot > 0 && Conforming(policy, lot) && OnLots(level.orders, lot) && taker.remaining % lot == 0
    ensures SweepLevel(policy, lot, level, taker, now).remaining % lot == 0
  {
    hide OnLots, Conforming, Contract, Foreign, Own, Settle, TradesOf, Quantities;
    ForeignOnLots(level.orders, taker.client, lot);
    var foreign := Foreign(level.orders, taker.client);
    PolicyApplied(policy, lot, taker.remaining, foreign, now);
    var shares := Shares(policy(taker.remaining, MakersOf(foreign), now), |foreign|);
    SumDivisible(shares, lot);
    SubtractMultiples(taker.remaining, Sum(shares), lot);
  }

  /** How much of the crossing part of a side is not the taker's own. */
  function Reach(levels: seq<PriceLevel>, taker: Order, limit: Option<Price>): nat {
    if levels == [] || !Crosses(taker.side, levels[0].price, limit) then 0
    else Quantity(Foreign(levels[0].orders, taker.client)) + Reach(levels[1..], taker, limit)
  }

  // ------------------------------------------------------- the book's rules

  ghost predicate QueueOk(spec: InstrumentSpec, side: Side, price: Price, bound: nat, orders: seq<Order>)
    requires spec.lotSize > 0
  {
    && (forall i :: 0 <= i < |orders| ==>
          && orders[i].side == side
          && orders[i].kind.Limit? && orders[i].kind.price == price
          && orders[i].remaining % spec.lotSize == 0
          && orders[i].arrival < bound)
    && (forall i, j :: 0 <= i < j < |orders| ==> orders[i].arrival < orders[j].arrival)
  }

  ghost predicate Sorted(ascending: bool, levels: seq<PriceLevel>) {
    forall i, j :: 0 <= i < j < |levels| ==> Before(ascending, levels[i].price, levels[j].price)
  }

  ghost predicate LevelOk(spec: InstrumentSpec, side: Side, bound: nat, level: PriceLevel)
    requires spec.lotSize > 0
  {
    level.orders != [] && QueueOk(spec, side, level.price, bound, level.orders)
  }

  ghost predicate LevelsOk(spec: InstrumentSpec, side: Side, bound: nat, levels: seq<PriceLevel>)
    requires spec.lotSize > 0
  {
    forall i :: 0 <= i < |levels| ==> LevelOk(spec, side, bound, levels[i])
  }

  ghost predicate SideOk(spec: InstrumentSpec, side: Side, bound: nat, levels: seq<PriceLevel>)
    requires spec.lotSize > 0
  {
    && Sorted(RestsAscending(side), levels)
    && LevelsOk(spec, side, bound, levels)
  }

  ghost predicate ParkedOk(spec: InstrumentSpec, side: Side, trigger: Price, orders: seq<Order>)
    requires spec.lotSize > 0
  {
    forall i :: 0 <= i < |orders| ==>
      && orders[i].side == side
      && orders[i].kind.IsStop() && orders[i].kind.trigger == trigger
      && orders[i].remaining % spec.lotSize == 0
      && Admit(spec, orders[i]).Ok?
  }

  ghost predicate StopLevelOk(spec: InstrumentSpec, side: Side, level: PriceLevel)
    requires spec.lotSize > 0
  {
    level.orders != [] && ParkedOk(spec, side, level.price, level.orders)
  }

  ghost predicate StopLevelsOk(spec: InstrumentSpec, side: Side, stops: seq<PriceLevel>)
    requires spec.lotSize > 0
  {
    forall i :: 0 <= i < |stops| ==> StopLevelOk(spec, side, stops[i])
  }

  ghost predicate StopsOk(spec: InstrumentSpec, side: Side, stops: seq<PriceLevel>)
    requires spec.lotSize > 0
  {
    && Sorted(StopsAscending(side), stops)
    && StopLevelsOk(spec, side, stops)
  }

  ghost predicate Distinct(ids: multiset<ExchangeId>) {
    forall id :: ids[id] <= 1
  }

  ghost predicate Structured(spec: InstrumentSpec, b: Book)
    requires spec.lotSize > 0
  {
    && SideOk(spec, Bid, b.nextArrival, b.bids)
    && SideOk(spec, Ask, b.nextArrival, b.asks)
    && StopsOk(spec, Bid, b.stopBids)
    && StopsOk(spec, Ask, b.stopAsks)
  }

  /** What holds of the book after every operation, failed ones included: both
      sides and both stop books strictly sorted without empty levels, every
      order at its own side and price, queues in strict arrival order with
      whole-lot remainders, parked stops admitted, and no id alive twice. */
  ghost predicate WellFormed(spec: InstrumentSpec, b: Book)
    requires spec.lotSize > 0
  {
    Structured(spec, b) && Distinct(LiveIds(b))
  }

  ghost predicate Stocked(orders: seq<Order>) {
    forall i :: 0 <= i < |orders| ==> orders[i].remaining > 0
  }

  ghost predicate SideStocked(levels: seq<PriceLevel>) {
    forall i :: 0 <= i < |levels| ==> Stocked(levels[i].orders)
  }

  /** Every resting order holds something. */
  ghost predicate BookStocked(b: Book) {
    SideStocked(b.bids) && SideStocked(b.asks)
  }
}
