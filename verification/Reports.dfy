/** What a caller is told, held against the books before and after, in plain
    comparisons of prices, quantities and ids. */
module Reports {
  import opened Wrappers
  import opened Instrument
  import opened Allocation
  import opened Orders
  import opened Book
  import opened SweepFacts
  import opened LevelFacts
  import opened Engine
  import opened SelfTrade
  import opened Prints
  import opened Sharing
  import opened Firing
  import opened Stock
  import opened Discipline
  import opened Accounting

  // ------------------------------------------------------------ one execution

  /** The side an order trades against, and the side it rests on. */
  function Facing(b: Book, side: Side): seq<PriceLevel> {
    match side
    case Bid => b.asks
    case Ask => b.bids
  }

  function Beside(b: Book, side: Side): seq<PriceLevel> {
    match side
    case Bid => b.bids
    case Ask => b.asks
  }

  /** Every print is the order's own, with somebody else, and for something. */
  ghost predicate Signed(order: Order, trades: seq<Trade>) {
    forall k :: 0 <= k < |trades| ==>
      && trades[k].takerId == order.id && trades[k].takerClient == order.client
      && trades[k].takerSide == order.side && trades[k].timestamp == order.timestamp
      && trades[k].makerClient != order.client && trades[k].quantity > 0
  }

  /** A buyer pays no more than its limit, a seller gets no less; a market order
      takes any price. Prices only get worse along the way. */
  ghost predicate PricedFor(order: Order, trades: seq<Trade>) {
    && (forall k :: 0 <= k < |trades| && order.kind.Limit? && order.side == Bid ==> trades[k].price <= order.kind.price)
    && (forall k :: 0 <= k < |trades| && order.kind.Limit? && order.side == Ask ==> trades[k].price >= order.kind.price)
    && (forall i, j :: 0 <= i < j < |trades| && order.side == Bid ==> trades[i].price <= trades[j].price)
    && (forall i, j :: 0 <= i < j < |trades| && order.side == Ask ==> trades[i].price >= trades[j].price)
  }

  /** Every order facing the taker is accounted for, none is new, and at one price
      the oldest is printed first. */
  ghost predicate MakersTold(order: Order, trades: seq<Trade>, cancelled: seq<ExchangeId>,
                             before: seq<PriceLevel>, after: seq<PriceLevel>)
  {
    && AllNamed(before, trades) && InLine(before, trades)
    && (forall m :: Resting(before, m) ==> MakerTold(m, trades, order.client, cancelled, after))
    && (forall o :: Resting(after, o) ==> CameFrom(before, o))
  }

  /** What is reported cancelled is exactly what the client had resting there and
      has no more, each once. */
  ghost predicate CancelledTold(order: Order, cancelled: seq<ExchangeId>, before: seq<PriceLevel>,
                                after: seq<PriceLevel>)
  {
    && NoneTwice(cancelled)
    && forall id :: id in cancelled <==> OwnGone(before, after, order.client, id)
  }

  /** The last trade price is that of the last print, if there was one. */
  predicate LastTold(before: Option<Price>, trades: seq<Trade>, after: Option<Price>) {
    after == if trades == [] then before else Some(trades[|trades| - 1].price)
  }

  /** Only a good-till-cancelled limit order leaves anything resting: what it did
      not trade, at its own price, behind everybody else. */
  ghost predicate RemainderTold(order: Order, trades: seq<Trade>, outcome: Outcome, before: Book, after: Book) {
    if outcome.Rested? || outcome.PartiallyFilledAndRested? then
      && order.kind.Limit? && order.kind.tif == GTC && Traded(trades) < order.remaining
      && after.nextArrival == before.nextArrival + 1
      && var left := order.(remaining := order.remaining - Traded(trades), arrival := before.nextArrival);
      forall o :: Resting(Beside(after, order.side), o) <==> Resting(Beside(before, order.side), o) || o == left
    else
      Beside(after, order.side) == Beside(before, order.side) && after.nextArrival == before.nextArrival
  }

  /** Fill-or-kill goes ahead exactly when enough is on offer within its limit, and
      otherwise nothing has moved. */
  ghost predicate FokTold(before: Book, order: Order, report: Report, after: Book) {
    order.kind.Limit? && order.kind.tif == FOK ==>
      && (report.outcome == Filled <==>
          Offered(Facing(before, order.side), order.side, order.client, order.kind.price) >= order.remaining)
      && (report.outcome != Filled ==>
            report.outcome == Killed && report.trades == [] && report.cancelled == [] && after == before)
  }

  /** The outcome says what was traded. */
  ghost predicate OutcomeTold(order: Order, report: Report) {
    match report.outcome
    case Filled => Traded(report.trades) == order.remaining
    case Rested => report.trades == [] && order.remaining > 0
    case PartiallyFilledAndRested => 0 < Traded(report.trades) < order.remaining
    case Killed => Traded(report.trades) < order.remaining && (order.kind.Limit? ==> order.kind.tif != GTC)
    case StopPending => false
  }

  /** An order left with anything, unless it was killed outright, finds nothing more
      within its limit. */
  ghost predicate TookAllItCould(order: Order, report: Report, after: Book) {
    Traded(report.trades) < order.remaining && !(order.kind.Limit? && order.kind.tif == FOK) ==>
      var facing := Facing(after, order.side);
      || facing == []
      || (order.kind.Limit? && order.side == Bid && facing[0].price > order.kind.price)
      || (order.kind.Limit? && order.side == Ask && facing[0].price < order.kind.price)
  }

  /** One execution of an order that is not a stop: its report against the books. */
  ghost predicate Executed(before: Book, order: Order, report: Report, after: Book) {
    && Handled(before, order, report, after) && FokTold(before, order, report, after)
    && (BookStocked(before) ==> OutcomeTold(order, report) && TookAllItCould(order, report, after))
  }

  ghost predicate Handled(before: Book, order: Order, report: Report, after: Book) {
    && report.orderId == order.id && report.triggered == []
    && Signed(order, report.trades) && PricedFor(order, report.trades)
    && MakersTold(order, report.trades, report.cancelled, Facing(before, order.side), Facing(after, order.side))
    && CancelledTold(order, report.cancelled, Facing(before, order.side), Facing(after, order.side))
    && RemainderTold(order, report.trades, report.outcome, before, after)
    && LastTold(before.last, report.trades, after.last)
    && after.stopBids == before.stopBids && after.stopAsks == before.stopAsks && after.nextSeq == before.nextSeq
  }

  // ------------------------------------------------------- the side it faces

  ghost predicate FacingTold(order: Order, trades: seq<Trade>, cancelled: seq<ExchangeId>,
                             before: seq<PriceLevel>, after: seq<PriceLevel>)
  {
    && Signed(order, trades) && PricedFor(order, trades)
    && MakersTold(order, trades, cancelled, before, after)
    && CancelledTold(order, cancelled, before, after)
  }

  lemma SidePriced(spec: InstrumentSpec, side: Side, bound: nat, levels: seq<PriceLevel>)
    requires spec.lotSize > 0 && SideOk(spec, side, bound, levels)
    ensures AllPriced(levels)
  {
    forall i | 0 <= i < |levels|
      ensures Priced(levels[i])
    {
      assert LevelOk(spec, side, bound, levels[i]);
    }
  }

  lemma SideOnce(b: Book, side: Side)
    requires Distinct(LiveIds(b))
    ensures Distinct(Ids(b.Levels(side)))
  {
    hide Ids;
    FewerIds(Ids(b.Levels(side)), LiveIds(b));
  }

  lemma {:induction false} SweepSigned(spec: InstrumentSpec, policy: Policy, levels: seq<PriceLevel>, taker: Order,
                                       limit: Option<Price>, now: nat)
    requires spec.lotSize > 0 && Conforming(policy, spec.lotSize) && taker.remaining % spec.lotSize == 0
    requires LevelsOnLots(levels, spec.lotSize)
    ensures Signed(taker, Sweep(policy, spec.lotSize, levels, taker, limit, now).trades)
    decreases |levels|
  {
    hide SweepLevel, Conforming, OnLots;
    if taker.remaining > 0 && levels != [] && Crosses(taker.side, levels[0].price, limit) {
      SweptOnLots(policy, spec.lotSize, levels[0], taker, now);
      LevelSigned(spec, policy, levels[0], taker, now);
      var swept := SweepLevel(policy, spec.lotSize, levels[0], taker, now);
      if swept.orders == [] {
        SweepSigned(spec, policy, levels[1..], taker.(remaining := swept.remaining), limit, now);
      }
    }
  }

  lemma LevelSigned(spec: InstrumentSpec, policy: Policy, level: PriceLevel, taker: Order, now: nat)
    requires spec.lotSize > 0 && Conforming(policy, spec.lotSize) && taker.remaining % spec.lotSize == 0
    requires OnLots(level.orders, spec.lotSize)
    ensures Signed(taker, SweepLevel(policy, spec.lotSize, level, taker, now).trades)
  {
    hide Conforming, OnLots, Foreign, Own, Settle;
    LevelSweptTrades(spec, policy, level, taker, now);
    LevelSweptClients(spec, policy, level, taker, now);
    var foreign := Foreign(level.orders, taker.client);
    ForeignOnLots(level.orders, taker.client, spec.lotSize);
    PolicyApplied(policy, spec.lotSize, taker.remaining, foreign, now);
  }

  lemma OutwardsIs(order: Order, trades: seq<Trade>)
    requires Outwards(RestsAscending(Opposite(order.side)), trades)
    requires forall k :: 0 <= k < |trades| ==>
               Honours(order.side, trades[k].price, if order.kind.Limit? then Some(order.kind.price) else None)
    ensures PricedFor(order, trades)
  {}

  /** The sweep of one order, told. */
  lemma SweepIsTold(venue: Venue, b: Book, order: Order)
    requires Ready(venue, b) && Whole(venue, order) && !order.kind.IsStop()
    ensures var swept := SweepOf(venue, b, order, if order.kind.Limit? then Some(order.kind.price) else None);
            FacingTold(order, swept.trades, IdsOf(swept.removed), Facing(b, order.side), swept.levels)
  {
    hide Sweep, LiveIds, Resting, Ids, MakerTold, CameFrom, OwnGone, AllNamed, InLine, Conforming, Signed, Distinct,
      Honours, Outwards,
      NoneTwice, SideOk;
    var side, limit := Opposite(order.side), if order.kind.Limit? then Some(order.kind.price) else None;
    var levels, now, spec := b.Levels(side), b.nextArrival, venue.spec;
    LevelOnLots(spec, side, now, levels);
    SidePriced(spec, side, now, levels);
    SideOnce(b, side);
    SweepSigned(spec, venue.policy, levels, order, limit, now);
    TradesWithinLimit(spec, venue.policy, levels, order, limit, now);
    SideInOrder(spec, side, now, levels);
    TradesWalkOutwards(spec, venue.policy, RestsAscending(side), levels, order, limit, now);
    var r := Sweep(venue.policy, spec.lotSize, levels, order, limit, now);
    OutwardsIs(order, r.trades);
    SweepNames(venue.policy, spec.lotSize, levels, order, limit, now);
    SweepMakersTold(spec, venue.policy, side, levels, order, limit, now);
  }

  lemma SideInOrder(spec: InstrumentSpec, side: Side, bound: nat, levels: seq<PriceLevel>)
    requires spec.lotSize > 0 && SideOk(spec, side, bound, levels)
    ensures Sorted(RestsAscending(side), levels)
  {}

  lemma SweepMakersTold(spec: InstrumentSpec, policy: Policy, side: Side, levels: seq<PriceLevel>, taker: Order,
                        limit: Option<Price>, now: nat)
    requires spec.lotSize > 0 && SideOk(spec, side, now, levels)
    requires Conforming(policy, spec.lotSize) && LevelsOnLots(levels, spec.lotSize)
    requires taker.remaining % spec.lotSize == 0 && AllPriced(levels) && Distinct(Ids(levels))
    ensures var r := Sweep(policy, spec.lotSize, levels, taker, limit, now);
            && MakersTold(taker, r.trades, IdsOf(r.removed), levels, r.levels)
            && CancelledTold(taker, IdsOf(r.removed), levels, r.levels)
  {
    hide Sweep, Resting, Ids, MakerTold, CameFrom, OwnGone, AllNamed, InLine, Conforming, Distinct, IdsOf, NoneTwice,
      SideOk;
    var r := Sweep(policy, spec.lotSize, levels, taker, limit, now);
    SweepNames(policy, spec.lotSize, levels, taker, limit, now);
    SweepInLine(spec, policy, side, now, levels, taker, limit, now);
    forall m | Resting(levels, m)
      ensures MakerTold(m, r.trades, taker.client, IdsOf(r.removed), r.levels)
    {
      SweepMaker(spec, policy, levels, taker, limit, now, m);
    }
    forall o | Resting(r.levels, o)
      ensures CameFrom(levels, o)
    {
      SweepBrings(policy, spec.lotSize, levels, taker, limit, now, o);
    }
    forall id
      ensures id in IdsOf(r.removed) <==> OwnGone(levels, r.levels, taker.client, id)
    {
      SweepCancelsExactly(spec, policy, levels, taker, limit, now, id);
    }
    SweepCancelsExactly(spec, policy, levels, taker, limit, now, taker.id);
  }

  // ------------------------------------------------------- the side it rests on

  lemma {:induction false} InsertBrings(ascending: bool, levels: seq<PriceLevel>, price: Price, order: Order, o: Order)
    ensures Resting(Insert(ascending, levels, price, order), o) <==> Resting(levels, o) || o == order
  {
    hide Resting;
    var after := Insert(ascending, levels, price, order);
    RestsSomewhere(after, o);
    assert [PriceLevel(price, [order])][1..] == [];
    if levels == [] {
      NothingRests(o);
    } else {
      RestsSomewhere(levels, o);
      if levels[0].price == price {
        assert after[1..] == levels[1..];
      } else if Before(ascending, price, levels[0].price) {
        assert after[1..] == levels;
      } else {
        InsertBrings(ascending, levels[1..], price, order, o);
        assert after[1..] == Insert(ascending, levels[1..], price, order);
      }
    }
  }

  lemma NothingRests(o: Order)
    ensures !Resting([], o)
  {}

  // --------------------------------------------------------------- executions

  /** A sweep and what is then remembered of it, nothing having been added. */
  lemma SweptIsTold(venue: Venue, b: Book, order: Order, outcome: Outcome)
    requires Ready(venue, b) && Whole(venue, order) && !order.kind.IsStop()
    requires !outcome.Rested? && !outcome.PartiallyFilledAndRested?
    ensures var swept := SweepOf(venue, b, order, if order.kind.Limit? then Some(order.kind.price) else None);
            var step := Printed(b.WithLevels(Opposite(order.side), swept.levels), order, swept, outcome);
            step.result.Ok? && Handled(b, order, step.result.value.Flat(), step.book)
  {
    hide SweepOf, LiveIds, MakersTold, CancelledTold, Signed, PricedFor, WellFormed;
    SweepIsTold(venue, b, order);
  }

  /** Where an added order goes: onto its own side, stamped, and nowhere else. */
  lemma AddedIs(spec: InstrumentSpec, b: Book, order: Order)
    requires order.kind.Limit?
    ensures var added := AddOrder(spec, b, order);
            added.error.None? ==>
              && Facing(added.book, order.side) == Facing(b, order.side)
              && Beside(added.book, order.side) ==
                 Insert(RestsAscending(order.side), Beside(b, order.side), order.kind.price,
                        order.(arrival := b.nextArrival))
              && added.book.nextArrival == b.nextArrival + 1 && added.book.last == b.last
              && added.book.stopBids == b.stopBids && added.book.stopAsks == b.stopAsks
              && added.book.nextSeq == b.nextSeq
  {
    hide LiveIds, Insert, Admit;
  }

  /** The same with the remainder added on the order's own side. */
  lemma RestedIsTold(venue: Venue, b: Book, order: Order, outcome: Outcome)
    requires Ready(venue, b) && Whole(venue, order) && order.kind.Limit? && order.kind.tif == GTC
    requires outcome.Rested? || outcome.PartiallyFilledAndRested?
    ensures var swept := SweepOf(venue, b, order, Some(order.kind.price));
            var added := AddOrder(venue.spec, b.WithLevels(Opposite(order.side), swept.levels),
                                  order.(remaining := swept.remaining));
            swept.remaining > 0 && added.error.None? ==>
              var step := Printed(added.book, order, swept, outcome);
              step.result.Ok? && Handled(b, order, step.result.value.Flat(), step.book)
  {
    hide SweepOf, LiveIds, MakersTold, CancelledTold, Signed, PricedFor, WellFormed, Insert, Resting, AddOrder;
    SweepIsTold(venue, b, order);
    LeftIsUntraded(venue, b, order, Some(order.kind.price));
    var swept := SweepOf(venue, b, order, Some(order.kind.price));
    var mid, rest := b.WithLevels(Opposite(order.side), swept.levels), order.(remaining := swept.remaining);
    AddedIs(venue.spec, mid, rest);
    var left := rest.(arrival := b.nextArrival);
    assert left == order.(remaining := swept.remaining, arrival := b.nextArrival);
    forall o
      ensures Resting(Insert(RestsAscending(order.side), Beside(b, order.side), order.kind.price, left), o) <==>
              Resting(Beside(b, order.side), o) || o == left
    {
      InsertBrings(RestsAscending(order.side), Beside(b, order.side), order.kind.price, left, o);
    }
  }

  lemma LeftIsUntraded(venue: Venue, b: Book, order: Order, limit: Option<Price>)
    requires Ready(venue, b) && Whole(venue, order)
    ensures var swept := SweepOf(venue, b, order, limit);
            swept.remaining <= order.remaining && Traded(swept.trades) == order.remaining - swept.remaining
  {
    hide Sweep, LiveIds;
    var side := Opposite(order.side);
    LevelOnLots(venue.spec, side, b.nextArrival, b.Levels(side));
    SweepConserves(venue.spec, venue.policy, b.Levels(side), order, limit, b.nextArrival);
  }

  /** An order that was killed before it touched anything. */
  lemma KilledIsTold(b: Book, order: Order)
    requires order.kind.Limit? && order.kind.tif == FOK
    ensures Handled(b, order, Execution(order, [], Killed, []).Flat(), b)
  {
    hide Resting, CameFrom;
    var facing := Facing(b, order.side);
    forall m | Resting(facing, m)
      ensures MakerTold(m, [], order.client, [], facing) && CameFrom(facing, m)
    {
      Untouched(m, order.client, facing);
      CameFromItself(facing, m);
    }
    forall id
      ensures !OwnGone(facing, facing, order.client, id)
    {
      if m :| Resting(facing, m) && m.id == id && id !in Ids(facing) {
        RestingIsListed(facing, m);
      }
    }
  }

  /** Everything but the outcome. */
  lemma ExecutionIsHandled(venue: Venue, b: Book, order: Order)
    requires Ready(venue, b) && Whole(venue, order) && !order.kind.IsStop()
    ensures var step := ExecuteNow(venue, b, order);
            step.result.Ok? ==> Handled(b, order, step.result.value.Flat(), step.book)
  {
    hide SweepOf, LiveIds, WellFormed, AddOrder, Handled, Printed, Reach;
    match order.kind
    case Market =>
      SweptIsTold(venue, b, order, Filled);
      SweptIsTold(venue, b, order, Killed);
    case Limit(price, tif) =>
      SweptIsTold(venue, b, order, Filled);
      SweptIsTold(venue, b, order, Killed);
      if tif == FOK {
        KilledIsTold(b, order);
      } else if tif == GTC {
        RestedIsTold(venue, b, order, Rested);
        RestedIsTold(venue, b, order, PartiallyFilledAndRested);
      }
  }

  lemma FokIsTold(venue: Venue, b: Book, order: Order)
    requires Ready(venue, b) && Whole(venue, order) && order.kind.Limit? && order.kind.tif == FOK
    ensures var step := ExecuteNow(venue, b, order);
            step.result.Ok? && FokTold(b, order, step.result.value.Flat(), step.book)
  {
    hide SweepOf, LiveIds, Reach, Offered;
    var side := Opposite(order.side);
    SideInOrder(venue.spec, side, b.nextArrival, b.Levels(side));
    ReachIsOffered(b.Levels(side), order, order.kind.price);
  }

  lemma OutcomeIsTold(venue: Venue, b: Book, order: Order)
    requires Solid(venue, b) && Whole(venue, order) && !order.kind.IsStop()
    ensures var step := ExecuteNow(venue, b, order);
            step.result.Ok? ==> OutcomeTold(order, step.result.value.Flat())
  {
    hide SweepOf, LiveIds, WellFormed, AddOrder, Reach, BookStocked;
    ExecuteNowBalances(venue, b, order);
  }

  lemma SweptTookAll(venue: Venue, b: Book, order: Order)
    requires Solid(venue, b) && Whole(venue, order) && !order.kind.IsStop()
    ensures var swept := SweepOf(venue, b, order, if order.kind.Limit? then Some(order.kind.price) else None);
            && Traded(swept.trades) + swept.remaining == order.remaining
            && (swept.remaining > 0 ==>
                  || swept.levels == []
                  || (order.kind.Limit? && order.side == Bid && swept.levels[0].price > order.kind.price)
                  || (order.kind.Limit? && order.side == Ask && swept.levels[0].price < order.kind.price))
  {
    hide Sweep, LiveIds;
    var limit := if order.kind.Limit? then Some(order.kind.price) else None;
    var side := Opposite(order.side);
    LeftIsUntraded(venue, b, order, limit);
    LevelOnLots(venue.spec, side, b.nextArrival, b.Levels(side));
    SweepReaches(venue.spec, venue.policy, side, b.nextArrival, b.Levels(side), order, limit, b.nextArrival);
  }

  lemma AllIsTaken(venue: Venue, b: Book, order: Order)
    requires Solid(venue, b) && Whole(venue, order) && !order.kind.IsStop()
    ensures var step := ExecuteNow(venue, b, order);
            step.result.Ok? ==> TookAllItCould(order, step.result.value.Flat(), step.book)
  {
    hide SweepOf, LiveIds, WellFormed, AddOrder, Reach, BookStocked;
    SweptTookAll(venue, b, order);
    if order.kind.Limit? && order.kind.tif == GTC {
      var swept := SweepOf(venue, b, order, Some(order.kind.price));
      AddedIs(venue.spec, b.WithLevels(Opposite(order.side), swept.levels), order.(remaining := swept.remaining));
    }
  }

  /** Every execution of an order that is not a stop is truly reported. */
  lemma ExecutionIsTold(venue: Venue, b: Book, order: Order)
    requires Ready(venue, b) && Whole(venue, order) && !order.kind.IsStop()
    ensures var step := ExecuteNow(venue, b, order);
            step.result.Ok? ==> Executed(b, order, step.result.value.Flat(), step.book)
  {
    hide LiveIds, WellFormed, ExecuteNow, Handled, FokTold, OutcomeTold, TookAllItCould, BookStocked;
    ExecutionIsHandled(venue, b, order);
    if order.kind.Limit? && order.kind.tif == FOK {
      FokIsTold(venue, b, order);
    } else {
      NotFok(b, order, ExecuteNow(venue, b, order));
    }
    if BookStocked(b) {
      OutcomeIsTold(venue, b, order);
      AllIsTaken(venue, b, order);
    }
  }

  lemma NotFok(b: Book, order: Order, step: Step)
    requires !(order.kind.Limit? && order.kind.tif == FOK)
    ensures step.result.Ok? ==> FokTold(b, order, step.result.value.Flat(), step.book)
  {}

  lemma TradesAreSwept(venue: Venue, b: Book, order: Order)
    requires Ready(venue, b) && Whole(venue, order) && !order.kind.IsStop()
    ensures var step := ExecuteNow(venue, b, order);
            step.result.Ok? && (order.kind.Limit? && order.kind.tif == FOK ==> step.result.value.outcome == Filled) ==>
              step.result.value.trades ==
              SweepOf(venue, b, order, if order.kind.Limit? then Some(order.kind.price) else None).trades
  {
    hide SweepOf, LiveIds, WellFormed, AddOrder, Reach;
  }

  /** Who gets how much of an execution that was not killed outright: each maker what
      the policy gives its place in its queue, out of what better prices leave. */
  lemma ExecutionPays(venue: Venue, b: Book, order: Order, i: nat, others: seq<Order>, makers: seq<Maker>, j: nat)
    requires Solid(venue, b) && Whole(venue, order) && !order.kind.IsStop() && ExecuteNow(venue, b, order).result.Ok?
    requires order.kind.Limit? && order.kind.tif == FOK ==> ExecuteNow(venue, b, order).result.value.outcome == Filled
    requires i < |Facing(b, order.side)| && others == Foreign(Facing(b, order.side)[i].orders, order.client)
    requires SeenAs(others, makers) && j < |others|
    ensures var facing := Facing(b, order.side);
            var limit := if order.kind.Limit? then Some(order.kind.price) else None;
            TradedWith(ExecuteNow(venue, b, order).result.value.Flat().trades, others[j].id) ==
            if Honours(order.side, facing[i].price, limit) && Ahead(facing, order.client, i) < order.remaining then
              ShareOf(venue.policy(order.remaining - Ahead(facing, order.client, i), makers, b.nextArrival), j)
            else 0
  {
    hide ExecuteNow, LiveIds, Sweep, SideOk, SideStocked, Foreign, SeenAs, TradedWith, ShareOf, Ahead, Ids, Conforming,
      Honours;
    TradesAreSwept(venue, b, order);
    var side, now, spec := Opposite(order.side), b.nextArrival, venue.spec;
    var limit := if order.kind.Limit? then Some(order.kind.price) else None;
    LevelOnLots(spec, side, now, b.Levels(side));
    SidePriced(spec, side, now, b.Levels(side));
    SideOnce(b, side);
    SweepPays(spec, venue.policy, side, now, b.Levels(side), order, limit, now, i, others, makers, j);
  }

  // ------------------------------------------------------- stops and cascades

  /** What a stop becomes when it fires: a stop-limit keeps its own limit and time
      in force, a stop-market takes any price. */
  ghost predicate Becomes(s: Order, now: Order) {
    && s.kind.IsStop()
    && (s.kind.StopMarket? ==> now == s.(kind := Market))
    && (s.kind.StopLimit? ==> now == s.(kind := Limit(s.kind.price, s.kind.tif)))
  }

  ghost predicate TurnOf(before: Book, s: Order, mid: Book, now: Order, report: Report, after: Book) {
    NextInLine(before, s) && Unparked(before, s, mid) && Becomes(s, now) && Executed(mid, now, report, after)
  }

  /** One turn of a cascade: the stop that is next in line leaves the stop books and
      is executed as what it becomes. */
  ghost predicate TurnTold(before: Book, report: Report, after: Book) {
    exists s, mid, now :: TurnOf(before, s, mid, now, report, after)
  }

  ghost predicate Trail(books: seq<Book>, reports: seq<Report>) {
    |books| == |reports| + 1 && forall i :: 0 <= i < |reports| ==> TurnTold(books[i], reports[i], books[i + 1])
  }

  function Flats(log: seq<Execution>): (reports: seq<Report>)
    ensures |reports| == |log|
    ensures forall i :: 0 <= i < |log| ==> reports[i] == log[i].Flat()
  {
    seq(|log|, i requires 0 <= i < |log| => log[i].Flat())
  }

  lemma TurnIsTold(venue: Venue, b: Book)
    requires Ready(venue, b) && StopsInTurn(b) && PopTriggered(b).Some? && Activated(venue, b).result.Ok?
    ensures TurnTold(b, Activated(venue, b).result.value.Flat(), Activated(venue, b).book)
  {
    hide LiveIds, WellFormed, ExecuteNow, PopTriggered, NextInLine, Unparked, Executed, Pending, StopIds, StopsInTurn;
    PopIsNextInLine(venue, b);
    PopKeeps(venue, b);
    var popped := PopTriggered(b).value;
    ExecutionIsTold(venue, popped.book, Activate(popped.order));
    assert TurnOf(b, popped.order, popped.book, Activate(popped.order), Activated(venue, b).result.value.Flat(),
                  Activated(venue, b).book);
  }

  /** A cascade, turn by turn. */
  lemma {:induction false} CascadeIsTold(venue: Venue, b: Book) returns (books: seq<Book>)
    requires Ready(venue, b) && StopsInTurn(b)
    ensures Cascade(venue, b).error.None?
    ensures Trail(books, Flats(Cascade(venue, b).log)) && books[0] == b
    ensures books[|books| - 1] == Cascade(venue, b).book && NobodyInLine(Cascade(venue, b).book)
    decreases Pending(b)
  {
    hide LiveIds, WellFormed, Activated, StopsInTurn, PopTriggered, Pending, Cascade, TurnTold, NobodyInLine;
    CascadeSettles(venue, b);
    CascadeUnfolds(venue, b);
    if PopTriggered(b).None? {
      NothingPoppedIsNobodyInLine(venue, b);
      books := [b];
    } else {
      ActivatedInTurn(venue, b);
      TurnIsTold(venue, b);
      var rest := CascadeIsTold(venue, Activated(venue, b).book);
      books := [b] + rest;
      TrailGrows(b, Activated(venue, b).result.value, rest, Cascade(venue, Activated(venue, b).book).log);
    }
  }

  lemma TrailGrows(b: Book, e: Execution, rest: seq<Book>, log: seq<Execution>)
    requires Trail(rest, Flats(log)) && TurnTold(b, e.Flat(), rest[0])
    ensures Trail([b] + rest, Flats([e] + log))
  {
    hide TurnTold;
    forall i | 0 <= i < |[e] + log|
      ensures TurnTold(([b] + rest)[i], Flats([e] + log)[i], ([b] + rest)[i + 1])
    {
      if i > 0 {
        assert TurnTold(rest[i - 1], Flats(log)[i - 1], rest[i]);
      }
    }
  }

  // ------------------------------------------------------------- a submission

  /** A stop the market has not reached yet: parked, and nothing else happens. */
  ghost predicate ParkingTold(before: Book, s: Order, report: Report, after: Book) {
    && report == Report(s.id, [], StopPending, [], [])
    && after.bids == before.bids && after.asks == before.asks && after.last == before.last
    && after.nextSeq == before.nextSeq && after.nextArrival == before.nextArrival
    && forall t :: IsParked(after, t) <==> IsParked(before, t) || t == s
  }

  /** The submitted order itself, under the id just minted. */
  ghost predicate FirstTold(before: Book, order: Order, report: Report, after: Book) {
    var start, minted := before.(nextSeq := before.nextSeq + 1), order.(id := FromSequence(before.nextSeq));
    if !order.kind.IsStop() then Executed(start, minted, report, after)
    else if !Reached(before.last, order) then ParkingTold(start, minted, report, after)
    else exists now :: Becomes(minted, now) && Executed(start, now, report, after)
  }

  ghost predicate Story(before: Book, order: Order, report: Report, after: Book, books: seq<Book>) {
    && Trail(books, report.triggered)
    && FirstTold(before, order, report.(triggered := []), books[0])
    && books[|books| - 1] == after && NobodyInLine(after)
  }

  /** The whole report of a submission against the books before and after. */
  ghost predicate SubmissionTold(before: Book, order: Order, report: Report, after: Book) {
    exists books :: Story(before, order, report, after, books)
  }

  lemma ParkIsTold(b: Book, s: Order)
    requires s.kind.IsStop()
    ensures Park(b, s).result.Ok? ==> ParkingTold(b, s, Park(b, s).result.value.Flat(), Park(b, s).book)
  {
    hide LiveIds, Insert, Resting;
    forall t
      ensures Resting(Insert(StopsAscending(s.side), b.Stops(s.side), s.kind.trigger, s), t) <==>
              Resting(b.Stops(s.side), t) || t == s
    {
      InsertBrings(StopsAscending(s.side), b.Stops(s.side), s.kind.trigger, s, t);
    }
  }

  lemma FirstIsTold(venue: Venue, b: Book, order: Order)
    requires Ready(venue, b) && Whole(venue, order) && Admit(venue.spec, order).Ok?
    ensures var start, minted := b.(nextSeq := b.nextSeq + 1), order.(id := FromSequence(b.nextSeq));
            && Ready(venue, start) && Admit(venue.spec, minted).Ok?
            && var step := Execute(venue, start, minted);
            step.result.Ok? ==> FirstTold(b, order, step.result.value.Flat(), step.book)
  {
    hide LiveIds, WellFormed, ExecuteNow, Park, Executed, ParkingTold, Admit;
    SubmitUnfolds(venue, b, order);
    var start, minted := b.(nextSeq := b.nextSeq + 1), order.(id := FromSequence(b.nextSeq));
    if !order.kind.IsStop() {
      ExecutionIsTold(venue, start, minted);
    } else if Triggered(b.last, order.side, order.kind.trigger) {
      ExecutionIsTold(venue, start, Activate(minted));
      assert Becomes(minted, Activate(minted));
    } else {
      ParkIsTold(start, minted);
    }
  }

  /** Every successful submission is truly reported: what the order did, and every
      stop it set off, turn by turn. */
  lemma SubmissionIsTold(venue: Venue, b: Book, order: Order)
    requires Ready(venue, b) && Whole(venue, order) && StopsInTurn(b) && Submit(venue, b, order).error.None?
    ensures var done := Submit(venue, b, order);
            done.log != [] && SubmissionTold(b, order, ReportOf(done.log), done.book)
  {
    hide LiveIds, WellFormed, Execute, Submit, Cascade, Admit, StopsInTurn, Trail, FirstTold, NobodyInLine;
    SubmitUnfolds(venue, b, order);
    var start, minted := b.(nextSeq := b.nextSeq + 1), order.(id := FromSequence(b.nextSeq));
    var step := Execute(venue, start, minted);
    FirstIsTold(venue, b, order);
    ExecuteInTurn(venue, b, minted);
    var books := CascadeIsTold(venue, step.book);
    var log := Submit(venue, b, order).log;
    assert ReportOf(log).triggered == Flats(Cascade(venue, step.book).log);
    assert Story(b, order, ReportOf(log), Submit(venue, b, order).book, books);
  }
}
