/** A run after which a stop that an order's own print reached is still parked. */
module LeftBehind {
  import opened Wrappers
  import opened Instrument
  import opened Orders
  import opened Book
  import opened Engine
  import opened Prints
  import opened Firing
  import opened Discipline
  import opened Reports
  import opened Consequences
  import opened Seeding

  // ------------------------------------------- orders that reach nothing

  lemma NothingSwept(venue: Venue, b: Book, order: Order)
    requires Ready(venue, b) && Whole(venue, order) && order.kind.Limit?
    requires var facing := Facing(b, order.side);
             facing == [] || if order.side == Bid then facing[0].price > order.kind.price
                             else facing[0].price < order.kind.price
    ensures SweepOf(venue, b, order, Some(order.kind.price)) ==
            SweepResult(Facing(b, order.side), order.remaining, [], [])
  {
    hide LiveIds;
  }

  /** A good-till-cancelled order that reaches nobody rests, and that is all. */
  lemma SubmissionRests(venue: Venue, b: Book, order: Order)
    requires Orderly(venue, b) && Whole(venue, order) && Admit(venue.spec, order).Ok?
    requires order.kind.Limit? && order.kind.tif == GTC && order.remaining > 0
    requires var facing := Facing(b, order.side);
             facing == [] || if order.side == Bid then facing[0].price > order.kind.price
                             else facing[0].price < order.kind.price
    ensures Submit(venue, b, order).book ==
            b.WithLevels(order.side, Insert(RestsAscending(order.side), b.Levels(order.side), order.kind.price,
                                            order.(id := FromSequence(b.nextSeq), arrival := b.nextArrival)))
             .(nextSeq := b.nextSeq + 1, nextArrival := b.nextArrival + 1)
  {
    hide WellFormed, LiveIds, Submit, Cascade, SweepOf, Insert, Admit, PopTriggered;
    SubmitUnfolds(venue, b, order);
    var start, minted := b.(nextSeq := b.nextSeq + 1), order.(id := FromSequence(b.nextSeq));
    SequenceAdvances(venue.spec, b);
    FreshId(LiveIds(b), b.nextSeq);
    NothingSwept(venue, start, minted);
    var after := Execute(venue, start, minted).book;
    NothingToPopIsQuiet(venue, after);
    CascadeUnfolds(venue, after);
  }

  /** A stop that is not reached parks, and that is all. */
  lemma SubmissionParks(venue: Venue, b: Book, order: Order)
    requires Orderly(venue, b) && Whole(venue, order) && Admit(venue.spec, order).Ok?
    requires order.kind.IsStop() && b.last.None?
    ensures Submit(venue, b, order).book ==
            b.WithStops(order.side, Insert(StopsAscending(order.side), b.Stops(order.side), order.kind.trigger,
                                           order.(id := FromSequence(b.nextSeq))))
             .(nextSeq := b.nextSeq + 1)
  {
    hide WellFormed, LiveIds, Submit, Cascade, Insert, Admit, PopTriggered;
    SubmitUnfolds(venue, b, order);
    var start, minted := b.(nextSeq := b.nextSeq + 1), order.(id := FromSequence(b.nextSeq));
    SequenceAdvances(venue.spec, b);
    FreshId(LiveIds(b), b.nextSeq);
    var after := Execute(venue, start, minted).book;
    NothingToPopIsQuiet(venue, after);
    CascadeUnfolds(venue, after);
  }

  // ------------------------------------------------------ one against one

  lemma {:induction false} AllWithOne(trades: seq<Trade>, id: ExchangeId)
    requires forall k :: 0 <= k < |trades| ==> trades[k].makerId == id && trades[k].quantity > 0
    ensures TradedWith(trades, id) == Traded(trades) >= |trades|
  {
    if trades != [] {
      AllWithOne(trades[..|trades| - 1], id);
    }
  }

  lemma NamesTheOne(facing: seq<PriceLevel>, trades: seq<Trade>, m: Order)
    requires AllNamed(facing, trades) && m.kind.Limit? && facing == [PriceLevel(m.kind.price, [m])]
    ensures forall k :: 0 <= k < |trades| ==> trades[k].makerId == m.id && trades[k].price == m.kind.price
  {
    OneLevel(m.kind.price, [m]);
    forall k | 0 <= k < |trades|
      ensures trades[k].makerId == m.id && trades[k].price == m.kind.price
    {
      assert TradeNames(facing, trades[k]);
    }
  }

  lemma StillListed(facing: seq<PriceLevel>, after: seq<PriceLevel>, m: Order, o: Order)
    requires m.kind.Limit? && facing == [PriceLevel(m.kind.price, [m])]
    requires CameFrom(facing, o) && Resting(after, o)
    ensures m.id in Ids(after)
  {
    hide Ids;
    OneLevel(m.kind.price, [m]);
    RestingIsListed(after, o);
  }

  lemma NobodyLeft(facing: seq<PriceLevel>, after: seq<PriceLevel>, m: Order)
    requires m.kind.Limit? && facing == [PriceLevel(m.kind.price, [m])] && m.id !in Ids(after)
    requires forall o :: Resting(after, o) ==> CameFrom(facing, o)
    ensures SideStocked(after)
  {
    hide CameFrom, Ids;
    forall i | 0 <= i < |after|
      ensures after[i].orders == []
    {
      if after[i].orders != [] {
        assert after[i].orders[0] in after[i].orders;
        StillListed(facing, after, m, after[i].orders[0]);
      }
    }
  }

  /** A market order for one against a side of one. */
  lemma OneForOne(before: Book, order: Order, report: Report, after: Book, m: Order)
    requires Executed(before, order, report, after) && BookStocked(before)
    requires order.kind == Market && order.remaining == 1
    requires m.kind.Limit? && m.remaining == 1 && m.client != order.client
    requires Facing(before, order.side) == [PriceLevel(m.kind.price, [m])]
    ensures report.trades != [] && after.last == Some(m.kind.price) && BookStocked(after)
    ensures Beside(after, order.side) == Beside(before, order.side)
    ensures after.stopBids == before.stopBids && after.stopAsks == before.stopAsks
  {
    hide FokTold, CancelledTold, Resting, CameFrom, AllNamed, Ids, TradedWith, SideStocked;
    var facing, left := Facing(before, order.side), Facing(after, order.side);
    OneLevel(m.kind.price, [m]);
    assert Resting(facing, m) && MakerTold(m, report.trades, order.client, report.cancelled, left);
    NamesTheOne(facing, report.trades, m);
    AllWithOne(report.trades, m.id);
    if report.trades == [] {
      NothingRestsNowhere(left, m);
    }
    NobodyLeft(facing, left, m);
  }

  lemma NothingRestsNowhere(levels: seq<PriceLevel>, o: Order)
    requires Resting(levels, o)
    ensures levels != []
  {}

  function Numbered(sequence: nat, client: ClientId, kind: OrderType, side: Side, arrival: nat): Order {
    Order(FromSequence(sequence), client, kind, side, 1, 1, 0, arrival)
  }

  const BIDDER := Numbered(1, "a", Limit(100, GTC), Bid, 1)
  const OFFERER := Numbered(2, "b", Limit(105, GTC), Ask, 2)
  const BUY_STOP := Numbered(3, "c", StopMarket(99), Bid, 0)
  const SELL_STOP := Numbered(4, "d", StopMarket(100), Ask, 0)
  const SELLER := Numbered(0, "e", Market, Ask, 0)

  /** A bid at 100, an ask at 105, a buy stop at 99 and a sell stop at 100, and no
      trade yet. */
  const TWO_STOPS := Book([PriceLevel(100, [BIDDER])], [PriceLevel(105, [OFFERER])], [PriceLevel(99, [BUY_STOP])],
                          [PriceLevel(100, [SELL_STOP])], None, 5, 3)

  lemma OnesAreAdmitted(order: Order)
    requires order.original == 1 && !order.kind.StopLimit?
    requires order.kind.Limit? ==> order.kind.price >= 1
    requires order.kind.StopMarket? ==> order.kind.trigger >= 1
    ensures Admit(CENTS, order).Ok?
  {
    var prices := order.kind.Prices();
    if prices != [] {
      assert prices[1..] == [];
      assert AdmitPrices(CENTS, prices[1..]) == Ok(());
    }
  }

  const SETTING_UP := [SubmitOrder(BIDDER), SubmitOrder(OFFERER), SubmitOrder(BUY_STOP), SubmitOrder(SELL_STOP)]

  lemma OneRests(venue: Venue, b: Book, order: Order)
    requires Orderly(venue, b) && venue.spec == CENTS && order.original == order.remaining == 1
    requires order.kind.Limit? && order.kind.tif == GTC && order.kind.price >= 1 && b.Levels(order.side) == []
    requires var facing := Facing(b, order.side);
             facing == [] || if order.side == Bid then facing[0].price > order.kind.price
                             else facing[0].price < order.kind.price
    requires order.id == FromSequence(b.nextSeq) && order.arrival == b.nextArrival
    ensures Orderly(venue, Apply(venue, b, SubmitOrder(order)))
    ensures Apply(venue, b, SubmitOrder(order)) ==
            b.WithLevels(order.side, [PriceLevel(order.kind.price, [order])])
             .(nextSeq := b.nextSeq + 1, nextArrival := b.nextArrival + 1)
  {
    hide WellFormed, LiveIds, Submit, Admit, Quiet, Uncrossed;
    OnesAreAdmitted(order);
    SubmissionRests(venue, b, order);
    SubmitIsTotal(venue, b, order);
    assert order.(id := FromSequence(b.nextSeq), arrival := b.nextArrival) == order;
  }

  lemma OneParks(venue: Venue, b: Book, order: Order)
    requires Orderly(venue, b) && venue.spec == CENTS && order.original == order.remaining == 1
    requires order.kind.StopMarket? && order.kind.trigger >= 1 && b.last.None? && b.Stops(order.side) == []
    requires order.id == FromSequence(b.nextSeq)
    ensures Orderly(venue, Apply(venue, b, SubmitOrder(order)))
    ensures Apply(venue, b, SubmitOrder(order)) ==
            b.WithStops(order.side, [PriceLevel(order.kind.trigger, [order])]).(nextSeq := b.nextSeq + 1)
  {
    hide WellFormed, LiveIds, Submit, Admit, Quiet, Uncrossed;
    OnesAreAdmitted(order);
    SubmissionParks(venue, b, order);
    SubmitIsTotal(venue, b, order);
    assert order.(id := FromSequence(b.nextSeq)) == order;
  }

  /** Four submissions set the book up. */
  lemma TwoStopsIsReached(venue: Venue)
    requires venue.Valid() && venue.spec == CENTS
    ensures Ready(venue, EMPTY) && AllLegal(venue, SETTING_UP) && Run(venue, EMPTY, SETTING_UP) == TWO_STOPS
  {
    hide WellFormed, LiveIds, Apply, Quiet, Uncrossed, Minted;
    EmptyIsOrderly(venue);
    OneRests(venue, EMPTY, BIDDER);
    var one := Apply(venue, EMPTY, SETTING_UP[0]);
    OneRests(venue, one, OFFERER);
    var two := Apply(venue, one, SETTING_UP[1]);
    OneParks(venue, two, BUY_STOP);
    var three := Apply(venue, two, SETTING_UP[2]);
    OneParks(venue, three, SELL_STOP);
    RunIsApplied(venue, three, SETTING_UP, 3);
    RunIsApplied(venue, two, SETTING_UP, 2);
    RunIsApplied(venue, one, SETTING_UP, 1);
    RunIsApplied(venue, EMPTY, SETTING_UP, 0);
    assert SETTING_UP[0..] == SETTING_UP;
  }

  lemma RunIsApplied(venue: Venue, b: Book, commands: seq<Command>, i: nat)
    requires Ready(venue, b) && AllLegal(venue, commands) && i < |commands|
    requires Ready(venue, Apply(venue, b, commands[i]))
    ensures Run(venue, b, commands[i..]) == Run(venue, Apply(venue, b, commands[i]), commands[i + 1..])
  {
    hide WellFormed, Apply;
    assert commands[i..][0] == commands[i] && commands[i..][1..] == commands[i + 1..];
  }

  lemma TwoStopsIds()
    ensures LiveIds(TWO_STOPS) == multiset{BIDDER.id, OFFERER.id, BUY_STOP.id, SELL_STOP.id}
  {
    OneLevel(100, [BIDDER]);
    OneLevel(105, [OFFERER]);
    OneLevel(99, [BUY_STOP]);
    OneLevel(100, [SELL_STOP]);
  }

  lemma TwoStopsIsOrderly(venue: Venue)
    requires venue.Valid() && venue.spec == CENTS
    ensures Orderly(venue, TWO_STOPS) && StopsInTurn(TWO_STOPS)
  {
    hide LiveIds, Ids, IdBag, Admit;
    TwoStopsIds();
    OnesAreAdmitted(BUY_STOP);
    OnesAreAdmitted(SELL_STOP);
  }

  lemma SellerPrints(report: Report, after: Book)
    requires FirstTold(TWO_STOPS, SELLER, report, after)
    ensures report.trades != [] && report.trades[|report.trades| - 1].price == 100
    ensures after.last == Some(100) && after.asks == TWO_STOPS.asks && BookStocked(after)
    ensures after.stopBids == TWO_STOPS.stopBids && after.stopAsks == TWO_STOPS.stopAsks
  {
    hide FokTold, MakersTold, CancelledTold;
    var start := TWO_STOPS.(nextSeq := TWO_STOPS.nextSeq + 1);
    OneForOne(start, SELLER.(id := FromSequence(TWO_STOPS.nextSeq)), report, after, BIDDER);
  }

  lemma BuyStopIsNext(b: Book)
    requires b.stopBids == TWO_STOPS.stopBids && b.stopAsks == TWO_STOPS.stopAsks && b.last == Some(100)
    ensures NextInLine(b, BUY_STOP)
    ensures forall s :: IsParked(b, s) <==> s == BUY_STOP || s == SELL_STOP
  {
    hide Resting;
    OneLevel(99, [BUY_STOP]);
    OneLevel(100, [SELL_STOP]);
  }

  lemma BuyStopPrints(before: Book, report: Report, after: Book)
    requires before.stopBids == TWO_STOPS.stopBids && before.stopAsks == TWO_STOPS.stopAsks
    requires before.last == Some(100) && before.asks == TWO_STOPS.asks && BookStocked(before)
    requires TurnTold(before, report, after)
    ensures report.orderId == BUY_STOP.id && after.last == Some(105)
    ensures forall s :: IsParked(after, s) <==> s == SELL_STOP
  {
    hide Resting, NextInLine, FokTold, MakersTold, CancelledTold, SideStocked;
    var s, mid, now :| TurnOf(before, s, mid, now, report, after);
    BuyStopIsNext(before);
    OneInLine(before, s, BUY_STOP);
    OneForOne(mid, now, report, after, OFFERER);
    assert forall t :: IsParked(after, t) <==> IsParked(mid, t);
  }

  lemma OnlyReachedStopsFire(b: Book, report: Report, after: Book, s: Order)
    requires (forall t :: IsParked(b, t) <==> t == s) && !Reached(b.last, s)
    ensures !TurnTold(b, report, after)
  {
    hide IsParked, Executed, Unparked;
  }

  /** A stop that an order's own print reached can still be left behind. Selling one
      at the market prints at 100, which reaches both stops. The buy stop is first in
      line and prints at 105, where the sell stop is reached no more. */
  lemma StopCanBeLeftBehind(venue: Venue)
    requires venue.Valid() && venue.spec == CENTS
    ensures Ready(venue, EMPTY) && AllLegal(venue, SETTING_UP) && Run(venue, EMPTY, SETTING_UP) == TWO_STOPS
    ensures Orderly(venue, TWO_STOPS) && IsParked(TWO_STOPS, SELL_STOP)
    ensures Submit(venue, TWO_STOPS, SELLER).error.None? && Submit(venue, TWO_STOPS, SELLER).log != []
    ensures var report, after := ReportOf(Submit(venue, TWO_STOPS, SELLER).log), Submit(venue, TWO_STOPS, SELLER).book;
            && report.trades != [] && Reached(Some(report.trades[|report.trades| - 1].price), SELL_STOP)
            && |report.triggered| == 1 && report.triggered[0].orderId == BUY_STOP.id
            && after.last == Some(105) && IsParked(after, SELL_STOP)
  {
    hide Submit, Admit, LiveIds, WellFormed, StopsInTurn, TurnTold, FirstTold, IsParked, Quiet, NextInLine, Uncrossed,
      Run;
    TwoStopsIsReached(venue);
    TwoStopsIsOrderly(venue);
    OnesAreAdmitted(SELLER);
    SubmitIsTotal(venue, TWO_STOPS, SELLER);
    SubmissionIsTold(venue, TWO_STOPS, SELLER);
    var report, after := ReportOf(Submit(venue, TWO_STOPS, SELLER).log), Submit(venue, TWO_STOPS, SELLER).book;
    var books :| Story(TWO_STOPS, SELLER, report, after, books);
    SellerPrints(report.(triggered := []), books[0]);
    BuyStopIsNext(books[0]);
    BuyStopIsNext(TWO_STOPS.(last := Some(100)));
    StillParked(TWO_STOPS.(last := Some(100)), TWO_STOPS, SELL_STOP);
    InLineIsReached(books[0], BUY_STOP);
    assert report.triggered != [];
    assert TurnTold(books[0], report.triggered[0], books[1]);
    BuyStopPrints(books[0], report.triggered[0], books[1]);
    if |report.triggered| > 1 {
      OnlyReachedStopsFire(books[1], report.triggered[1], books[2], SELL_STOP);
    }
  }

  lemma StillParked(b: Book, c: Book, s: Order)
    requires IsParked(b, s) && b.stopBids == c.stopBids && b.stopAsks == c.stopAsks
    ensures IsParked(c, s)
  {}
}
