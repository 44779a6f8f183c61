/** Submitting, seeding and cancelling orders, with the stop cascade — each
    operation as a function of the book, and what all of them keep. */
module Engine {
  import opened Wrappers
  import opened Instrument
  import opened Allocation
  import opened Orders
  import opened Book
  import opened SweepFacts
  import opened LevelFacts

  /** One order run through matching: what it was, what it did, what became of
      it, and which of the client's own resting orders it cancelled. */
  datatype Execution = Execution(order: Order, trades: seq<Trade>, outcome: Outcome, removed: seq<Order>) {
    function Flat(): Report {
      Report(order.id, trades, outcome, IdsOf(removed), [])
    }
  }

  datatype Step = Step(book: Book, result: Result<Execution, BookError>)

  datatype Added = Added(book: Book, error: Option<BookError>)

  datatype Popped = Popped(order: Order, book: Book)

  /** The book after a submission, every execution it set off in order, and the
      error that stopped it, if any. */
  datatype Submission = Submission(book: Book, log: seq<Execution>, error: Option<BookError>)

  /** What the caller is handed: the first execution's report, with those of the
      triggered stops flat underneath. */
  function ReportOf(log: seq<Execution>): Report
    requires log != []
  {
    log[0].Flat().(triggered := seq(|log| - 1, i requires 0 <= i < |log| - 1 => log[i + 1].Flat()))
  }

  // ------------------------------------------------------------ operations

  /** Rest an order without matching it. */
  ghost function AddOrder(spec: InstrumentSpec, b: Book, order: Order): Added {
    if !order.kind.Limit? then Added(b, Some(NotRestable))
    else
      match Admit(spec, order)
      case Err(reason) => Added(b, Some(Rejected(reason)))
      case Ok(_) =>
        if order.id in LiveIds(b) then Added(b, Some(ExchangeIdDuplicated))
        else
          var levels := Insert(RestsAscending(order.side), b.Levels(order.side), order.kind.price,
                               order.(arrival := b.nextArrival));
          Added(b.WithLevels(order.side, levels).(nextArrival := b.nextArrival + 1), None)
  }

  ghost function CancelOrder(b: Book, id: ExchangeId): Added {
    if id !in LiveIds(b) then Added(b, Some(OrderNotFound))
    else
      Added(b.(bids := Unlink(b.bids, id), asks := Unlink(b.asks, id),
               stopBids := Unlink(b.stopBids, id), stopAsks := Unlink(b.stopAsks, id)), None)
  }

  /** The trigger signal for stops: the price of the most recent trade. */
  function Printed(b: Book, order: Order, swept: SweepResult, outcome: Outcome): Step {
    var last := if swept.trades == [] then b.last else Some(swept.trades[|swept.trades| - 1].price);
    Step(b.(last := last), Ok(Execution(order, swept.trades, outcome, swept.removed)))
  }

  ghost predicate Ready(venue: Venue, b: Book) {
    venue.Valid() && WellFormed(venue.spec, b)
  }

  ghost predicate Whole(venue: Venue, order: Order)
    requires venue.Valid()
  {
    order.remaining % venue.spec.lotSize == 0
  }

  /** The sweep one order makes through the opposite side. */
  ghost function SweepOf(venue: Venue, b: Book, order: Order, limit: Option<Price>): SweepResult
    requires Ready(venue, b) && Whole(venue, order)
  {
    LevelOnLots(venue.spec, Opposite(order.side), b.nextArrival, b.Levels(Opposite(order.side)));
    Sweep(venue.policy, venue.spec.lotSize, b.Levels(Opposite(order.side)), order, limit, b.nextArrival)
  }

  ghost function ProcessLimit(venue: Venue, b: Book, order: Order, limit: Price, tif: TimeInForce): Step
    requires Ready(venue, b) && Whole(venue, order) && tif != FOK
  {
    var swept := SweepOf(venue, b, order, Some(limit));
    var after := b.WithLevels(Opposite(order.side), swept.levels);
    if swept.remaining == 0 then Printed(after, order, swept, Filled)
    else if tif == IOC then Printed(after, order, swept, Killed)
    else
      var added := AddOrder(venue.spec, after, order.(remaining := swept.remaining));
      match added.error
      case Some(error) => Step(after, Err(error))
      case None => Printed(added.book, order, swept, if swept.trades == [] then Rested else PartiallyFilledAndRested)
  }

  /** Fill or kill checks before it executes. */
  ghost function ProcessFok(venue: Venue, b: Book, order: Order, limit: Price): Step
    requires Ready(venue, b) && Whole(venue, order)
  {
    if Reach(b.Levels(Opposite(order.side)), order, Some(limit)) < order.remaining then
      Step(b, Ok(Execution(order, [], Killed, [])))
    else
      var swept := SweepOf(venue, b, order, Some(limit));
      Printed(b.WithLevels(Opposite(order.side), swept.levels), order, swept, Filled)
  }

  ghost function ProcessMarket(venue: Venue, b: Book, order: Order): Step
    requires Ready(venue, b) && Whole(venue, order)
  {
    var swept := SweepOf(venue, b, order, None);
    Printed(b.WithLevels(Opposite(order.side), swept.levels), order, swept,
            if swept.remaining == 0 then Filled else Killed)
  }

  ghost function ExecuteNow(venue: Venue, b: Book, order: Order): Step
    requires Ready(venue, b) && Whole(venue, order) && !order.kind.IsStop()
  {
    match order.kind
    case Limit(price, tif) =>
      if tif == FOK then ProcessFok(venue, b, order, price) else ProcessLimit(venue, b, order, price, tif)
    case Market => ProcessMarket(venue, b, order)
  }

  predicate Triggered(last: Option<Price>, side: Side, trigger: Price) {
    last.Some? && if side == Bid then last.value >= trigger else last.value <= trigger
  }

  ghost function Park(b: Book, order: Order): Step
    requires order.kind.IsStop()
  {
    if order.id in LiveIds(b) then Step(b, Err(ExchangeIdDuplicated))
    else
      Step(b.WithStops(order.side, Insert(StopsAscending(order.side), b.Stops(order.side), order.kind.trigger, order)),
           Ok(Execution(order, [], StopPending, [])))
  }

  /** Run one order through matching: a stop parks unless the market has already
      reached its trigger. */
  ghost function Execute(venue: Venue, b: Book, order: Order): Step
    requires Ready(venue, b) && Whole(venue, order) && Admit(venue.spec, order).Ok?
  {
    if order.kind.IsStop() then
      if Triggered(b.last, order.side, order.kind.trigger) then ExecuteNow(venue, b, Activate(order))
      else Park(b, order)
    else ExecuteNow(venue, b, order)
  }

  /** The nearest stop of a side has been reached; no trigger's queue is empty. */
  predicate Fires(b: Book, side: Side) {
    b.Stops(side) != [] && b.Stops(side)[0].orders != [] && Triggered(b.last, side, b.Stops(side)[0].price)
  }

  /** Nearest buy stop first, then nearest sell stop, first come first out. */
  function PopTriggered(b: Book): Option<Popped> {
    if Fires(b, Bid) then
      Some(Popped(b.stopBids[0].orders[0], b.(stopBids := PopFront(b.stopBids))))
    else if Fires(b, Ask) then
      Some(Popped(b.stopAsks[0].orders[0], b.(stopAsks := PopFront(b.stopAsks))))
    else None
  }

  function Pending(b: Book): nat {
    Parked(b.stopBids) + Parked(b.stopAsks)
  }

  /** The next triggered stop, activated and run. */
  ghost function Activated(venue: Venue, b: Book): Step
    requires Ready(venue, b) && PopTriggered(b).Some?
  {
    PopKeeps(venue, b);
    ExecuteNow(venue, PopTriggered(b).value.book, Activate(PopTriggered(b).value.order))
  }

  /** Every triggered stop, one after the other, until none is left: each pass
      takes one stop out for good and matching can never add one. */
  ghost function Cascade(venue: Venue, b: Book): Submission
    requires Ready(venue, b)
    decreases Pending(b)
  {
    if PopTriggered(b).None? then Submission(b, [], None)
    else
      var step := Activated(venue, b);
      ActivatedKeeps(venue, b);
      match step.result
      case Err(error) => Submission(step.book, [], Some(error))
      case Ok(execution) =>
        var rest := Cascade(venue, step.book);
        Submission(rest.book, [execution] + rest.log, rest.error)
  }

  ghost function Submit(venue: Venue, b: Book, order: Order): Submission
    requires Ready(venue, b) && Whole(venue, order)
  {
    match Admit(venue.spec, order)
    case Err(reason) => Submission(b, [], Some(Rejected(reason)))
    case Ok(_) =>
      var minted := order.(id := FromSequence(b.nextSeq));
      var step := Execute(venue, b.(nextSeq := b.nextSeq + 1), minted);
      ExecuteKeeps(venue, b.(nextSeq := b.nextSeq + 1), minted);
      match step.result
      case Err(error) => Submission(step.book, [], Some(error))
      case Ok(execution) =>
        var rest := Cascade(venue, step.book);
        Submission(rest.book, [execution] + rest.log, rest.error)
  }

  // ------------------------------------------------------ what is preserved

  lemma FreshIdStaysDistinct(ids: multiset<ExchangeId>, id: ExchangeId)
    requires Distinct(ids) && id !in ids
    ensures Distinct(ids + multiset{id})
  {}

  lemma LevelsSwapped(b: Book, side: Side, levels: seq<PriceLevel>)
    ensures LiveIds(b.WithLevels(side, levels)) + Ids(b.Levels(side)) == LiveIds(b) + Ids(levels)
    ensures StopIds(b.WithLevels(side, levels)) == StopIds(b)
  {}

  lemma StopsSwapped(b: Book, side: Side, stops: seq<PriceLevel>)
    ensures LiveIds(b.WithStops(side, stops)) + Ids(b.Stops(side)) == LiveIds(b) + Ids(stops)
    ensures StopIds(b.WithStops(side, stops)) + Ids(b.Stops(side)) == StopIds(b) + Ids(stops)
  {}

  /** Taking the same ids off both sides of an equation between bags. */
  lemma CancelsMore(x: multiset<ExchangeId>, a: multiset<ExchangeId>, y: multiset<ExchangeId>, c: multiset<ExchangeId>,
                    d: multiset<ExchangeId>)
    requires x + a == y + c && c == a + d
    ensures x == y + d
  {
    forall id
      ensures x[id] == (y + d)[id]
    {
      assert (x + a)[id] == (y + c)[id];
    }
  }

  lemma CancelsFewer(x: multiset<ExchangeId>, a: multiset<ExchangeId>, y: multiset<ExchangeId>, c: multiset<ExchangeId>)
    requires x + a == y + c && c <= a
    ensures x <= y
  {
    forall id
      ensures x[id] <= y[id]
    {
      assert (x + a)[id] == (y + c)[id];
      assert c[id] <= a[id];
    }
  }

  lemma SweptStructured(venue: Venue, b: Book, order: Order, limit: Option<Price>)
    requires Ready(venue, b) && Whole(venue, order)
    ensures var swept := SweepOf(venue, b, order, limit);
            && Structured(venue.spec, b.WithLevels(Opposite(order.side), swept.levels))
            && swept.remaining % venue.spec.lotSize == 0
  {
    var side := Opposite(order.side);
    var levels := b.Levels(side);
    LevelOnLots(venue.spec, side, b.nextArrival, levels);
    SweepKeepsOrder(venue.spec, venue.policy, side, b.nextArrival, levels, order, limit, b.nextArrival);
    SweepStaysWhole(venue.policy, venue.spec.lotSize, levels, order, limit, b.nextArrival);
  }

  lemma SweptIds(venue: Venue, b: Book, order: Order, limit: Option<Price>)
    requires Ready(venue, b) && Whole(venue, order)
    ensures var swept := SweepOf(venue, b, order, limit);
            && LiveIds(b.WithLevels(Opposite(order.side), swept.levels)) <= LiveIds(b)
            && Distinct(LiveIds(b.WithLevels(Opposite(order.side), swept.levels)))
  {
    var side := Opposite(order.side);
    var levels := b.Levels(side);
    LevelOnLots(venue.spec, side, b.nextArrival, levels);
    SweepIds(venue.spec, venue.policy, levels, order, limit, b.nextArrival);
    var swept := SweepOf(venue, b, order, limit);
    assert Ids(swept.levels) <= Ids(levels);
    LevelsSwapped(b, side, swept.levels);
    CancelsFewer(LiveIds(b.WithLevels(side, swept.levels)), Ids(levels), LiveIds(b), Ids(swept.levels));
    FewerIds(LiveIds(b.WithLevels(side, swept.levels)), LiveIds(b));
  }

  lemma SweptKeeps(venue: Venue, b: Book, order: Order, limit: Option<Price>)
    requires Ready(venue, b) && Whole(venue, order)
    ensures var swept := SweepOf(venue, b, order, limit);
            && WellFormed(venue.spec, b.WithLevels(Opposite(order.side), swept.levels))
            && LiveIds(b.WithLevels(Opposite(order.side), swept.levels)) <= LiveIds(b)
            && swept.remaining % venue.spec.lotSize == 0
  {
    SweptStructured(venue, b, order, limit);
    SweptIds(venue, b, order, limit);
  }

  lemma SideWidens(spec: InstrumentSpec, side: Side, bound: nat, levels: seq<PriceLevel>)
    requires spec.lotSize > 0 && SideOk(spec, side, bound, levels)
    ensures SideOk(spec, side, bound + 1, levels)
  {
    forall i | 0 <= i < |levels|
      ensures LevelOk(spec, side, bound + 1, levels[i])
    {
      QueueWiden(spec, side, levels[i].price, bound, bound + 1, levels[i].orders);
    }
  }

  lemma AddOrderStructured(spec: InstrumentSpec, b: Book, order: Order)
    requires spec.lotSize > 0 && Structured(spec, b) && order.remaining % spec.lotSize == 0
    ensures Structured(spec, AddOrder(spec, b, order).book)
  {
    hide LiveIds, Admit, SideOk, Insert;
    if AddOrder(spec, b, order).error.None? {
      var stamped := order.(arrival := b.nextArrival);
      assert [stamped][0] == stamped;
      InsertRests(spec, order.side, b.nextArrival, b.Levels(order.side), order.kind.price, stamped);
      SideWidens(spec, Opposite(order.side), b.nextArrival, b.Levels(Opposite(order.side)));
    }
  }

  lemma AddOrderCounts(spec: InstrumentSpec, b: Book, order: Order)
    ensures var added := AddOrder(spec, b, order);
            added.error.None? ==>
              && order.id !in LiveIds(b)
              && LiveIds(added.book) == LiveIds(b) + multiset{order.id}
              && Depth(added.book.Levels(order.side)) == Depth(b.Levels(order.side)) + order.remaining
              && added.book.Levels(Opposite(order.side)) == b.Levels(Opposite(order.side))
  {
    if AddOrder(spec, b, order).error.None? {
      var stamped := order.(arrival := b.nextArrival);
      var before := b.Levels(order.side);
      var after := Insert(RestsAscending(order.side), before, order.kind.price, stamped);
      InsertCounts(RestsAscending(order.side), before, order.kind.price, stamped);
      LevelsSwapped(b, order.side, after);
      CancelsMore(LiveIds(b.WithLevels(order.side, after)), Ids(before), LiveIds(b), Ids(after), multiset{order.id});
    }
  }

  /** Adding keeps the rules, and changes exactly one side by exactly one order,
      stamped with the next arrival — or nothing at all. */
  lemma AddOrderKeeps(spec: InstrumentSpec, b: Book, order: Order)
    requires spec.lotSize > 0 && WellFormed(spec, b) && order.remaining % spec.lotSize == 0
    ensures WellFormed(spec, AddOrder(spec, b, order).book)
    ensures AddOrder(spec, b, order).error.Some? ==> AddOrder(spec, b, order).book == b
    ensures LiveIds(AddOrder(spec, b, order).book) <= LiveIds(b) + multiset{order.id}
  {
    hide LiveIds, Structured, Insert, Admit, Distinct;
    AddOrderStructured(spec, b, order);
    AddOrderCounts(spec, b, order);
    if order.id !in LiveIds(b) {
      FreshIdStaysDistinct(LiveIds(b), order.id);
    }
  }

  lemma CancelIds(b: Book, id: ExchangeId)
    ensures LiveIds(CancelOrder(b, id).book) == LiveIds(b)[id := 0]
  {
    UnlinkIds(b.bids, id);
    UnlinkIds(b.asks, id);
    UnlinkIds(b.stopBids, id);
    UnlinkIds(b.stopAsks, id);
    DropEverywhere(Ids(b.bids), Ids(b.asks), Ids(b.stopBids), Ids(b.stopAsks), id);
    if id !in LiveIds(b) {
      assert LiveIds(b)[id := 0] == LiveIds(b);
    }
  }

  lemma DropEverywhere(p: multiset<ExchangeId>, q: multiset<ExchangeId>, r: multiset<ExchangeId>,
                       s: multiset<ExchangeId>, id: ExchangeId)
    ensures (p + q + (r + s))[id := 0] == p[id := 0] + q[id := 0] + (r[id := 0] + s[id := 0])
  {}

  lemma CancelStructured(spec: InstrumentSpec, b: Book, id: ExchangeId)
    requires spec.lotSize > 0 && Structured(spec, b)
    ensures Structured(spec, CancelOrder(b, id).book)
  {
    UnlinkKeepsSide(spec, Bid, b.nextArrival, b.bids, id);
    UnlinkKeepsSide(spec, Ask, b.nextArrival, b.asks, id);
    UnlinkKeepsStops(spec, Bid, b.stopBids, id);
    UnlinkKeepsStops(spec, Ask, b.stopAsks, id);
  }

  lemma CancelKeeps(spec: InstrumentSpec, b: Book, id: ExchangeId)
    requires spec.lotSize > 0 && WellFormed(spec, b)
    ensures WellFormed(spec, CancelOrder(b, id).book)
    ensures CancelOrder(b, id).error.Some? <==> id !in LiveIds(b)
    ensures LiveIds(CancelOrder(b, id).book) == LiveIds(b)[id := 0]
  {
    CancelStructured(spec, b, id);
    CancelIds(b, id);
    FewerIds(LiveIds(CancelOrder(b, id).book), LiveIds(b));
  }

  /** What matching one order now may do to a book: keep the rules, bring at most
      the order's own id to life, and leave the stop books alone. */
  ghost predicate Matched(venue: Venue, b: Book, id: ExchangeId, after: Book)
    requires venue.Valid()
  {
    && WellFormed(venue.spec, after)
    && LiveIds(after) <= LiveIds(b) + multiset{id}
    && SameStops(b, after)
  }

  lemma PrintedMatched(venue: Venue, b: Book, order: Order, after: Book, swept: SweepResult, outcome: Outcome)
    requires venue.Valid() && Matched(venue, b, order.id, after)
    ensures Matched(venue, b, order.id, Printed(after, order, swept, outcome).book)
  {}

  lemma SweptMatched(venue: Venue, b: Book, order: Order, limit: Option<Price>)
    requires Ready(venue, b) && Whole(venue, order)
    ensures Matched(venue, b, order.id, b.WithLevels(Opposite(order.side), SweepOf(venue, b, order, limit).levels))
    ensures LiveIds(b.WithLevels(Opposite(order.side), SweepOf(venue, b, order, limit).levels)) <= LiveIds(b)
    ensures SweepOf(venue, b, order, limit).remaining % venue.spec.lotSize == 0
  {
    SweptStructured(venue, b, order, limit);
    SweptIds(venue, b, order, limit);
  }

  lemma AddOrderSameStops(spec: InstrumentSpec, b: Book, order: Order)
    ensures SameStops(b, AddOrder(spec, b, order).book)
  {
    hide LiveIds, Admit, Insert;
  }

  lemma Chain(a: multiset<ExchangeId>, m: multiset<ExchangeId>, z: multiset<ExchangeId>, id: ExchangeId)
    requires a <= m + multiset{id} && m <= z
    ensures a <= z + multiset{id}
  {}

  lemma AddedMatched(venue: Venue, b: Book, after: Book, order: Order)
    requires venue.Valid() && Matched(venue, b, order.id, after) && LiveIds(after) <= LiveIds(b)
    requires Whole(venue, order)
    ensures Matched(venue, b, order.id, AddOrder(venue.spec, after, order).book)
  {
    hide LiveIds, WellFormed, AddOrder;
    AddOrderKeeps(venue.spec, after, order);
    AddOrderSameStops(venue.spec, after, order);
    Chain(LiveIds(AddOrder(venue.spec, after, order).book), LiveIds(after), LiveIds(b), order.id);
  }

  lemma ProcessLimitMatched(venue: Venue, b: Book, order: Order, limit: Price, tif: TimeInForce)
    requires Ready(venue, b) && Whole(venue, order) && tif != FOK
    ensures Matched(venue, b, order.id, ProcessLimit(venue, b, order, limit, tif).book)
  {
    hide Matched, SweepOf, Printed, AddOrder, LiveIds;
    var swept := SweepOf(venue, b, order, Some(limit));
    var after := b.WithLevels(Opposite(order.side), swept.levels);
    SweptMatched(venue, b, order, Some(limit));
    if swept.remaining == 0 {
      PrintedMatched(venue, b, order, after, swept, Filled);
    } else if tif == IOC {
      PrintedMatched(venue, b, order, after, swept, Killed);
    } else {
      var left := order.(remaining := swept.remaining);
      AddedMatched(venue, b, after, left);
      PrintedMatched(venue, b, order, AddOrder(venue.spec, after, left).book, swept, Rested);
      PrintedMatched(venue, b, order, AddOrder(venue.spec, after, left).book, swept, PartiallyFilledAndRested);
    }
  }

  ghost predicate SameStops(b: Book, after: Book) {
    after.stopBids == b.stopBids && after.stopAsks == b.stopAsks && after.nextSeq == b.nextSeq
  }

  /** Matching an order now never touches a stop book, keeps the rules, and can
      bring at most its own id to life. */
  lemma ExecuteNowKeeps(venue: Venue, b: Book, order: Order)
    requires Ready(venue, b) && Whole(venue, order) && !order.kind.IsStop()
    ensures Matched(venue, b, order.id, ExecuteNow(venue, b, order).book)
  {
    hide Matched, SweepOf, Printed, ProcessLimit, Reach;
    match order.kind
    case Limit(price, tif) =>
      if tif == FOK {
        StillMatched(venue, b, order.id);
        SweptMatched(venue, b, order, Some(price));
        var swept := SweepOf(venue, b, order, Some(price));
        PrintedMatched(venue, b, order, b.WithLevels(Opposite(order.side), swept.levels), swept, Filled);
      } else {
        ProcessLimitMatched(venue, b, order, price, tif);
      }
    case Market =>
      SweptMatched(venue, b, order, None);
      var swept := SweepOf(venue, b, order, None);
      PrintedMatched(venue, b, order, b.WithLevels(Opposite(order.side), swept.levels), swept, Filled);
      PrintedMatched(venue, b, order, b.WithLevels(Opposite(order.side), swept.levels), swept, Killed);
  }

  lemma StillMatched(venue: Venue, b: Book, id: ExchangeId)
    requires Ready(venue, b)
    ensures Matched(venue, b, id, b)
  {}

  lemma ParkKeeps(spec: InstrumentSpec, b: Book, order: Order)
    requires spec.lotSize > 0 && WellFormed(spec, b)
    requires order.kind.IsStop() && order.remaining % spec.lotSize == 0 && Admit(spec, order).Ok?
    ensures WellFormed(spec, Park(b, order).book)
    ensures LiveIds(Park(b, order).book) <= LiveIds(b) + multiset{order.id}
    ensures Park(b, order).book.nextSeq == b.nextSeq
  {
    if order.id !in LiveIds(b) {
      assert [order][0] == order;
      InsertParks(spec, order.side, b.Stops(order.side), order.kind.trigger, order);
      ParkCounts(b, order);
      FreshIdStaysDistinct(LiveIds(b), order.id);
    }
  }

  lemma ParkCounts(b: Book, order: Order)
    requires order.kind.IsStop()
    ensures Park(b, order).result.Ok? ==>
              && LiveIds(Park(b, order).book) == LiveIds(b) + multiset{order.id}
              && StopIds(Park(b, order).book) == StopIds(b) + multiset{order.id}
  {
    if order.id !in LiveIds(b) {
      var before := b.Stops(order.side);
      var after := Insert(StopsAscending(order.side), before, order.kind.trigger, order);
      InsertCounts(StopsAscending(order.side), before, order.kind.trigger, order);
      StopsSwapped(b, order.side, after);
      CancelsMore(LiveIds(b.WithStops(order.side, after)), Ids(before), LiveIds(b), Ids(after), multiset{order.id});
      CancelsMore(StopIds(b.WithStops(order.side, after)), Ids(before), StopIds(b), Ids(after), multiset{order.id});
    }
  }

  lemma ExecuteKeeps(venue: Venue, b: Book, order: Order)
    requires Ready(venue, b) && Whole(venue, order) && Admit(venue.spec, order).Ok?
    ensures WellFormed(venue.spec, Execute(venue, b, order).book)
    ensures Execute(venue, b, order).book.nextSeq == b.nextSeq
    ensures LiveIds(Execute(venue, b, order).book) <= LiveIds(b) + multiset{order.id}
  {
    hide LiveIds, WellFormed, ExecuteNow, Park, Admit;
    if order.kind.IsStop() {
      if Triggered(b.last, order.side, order.kind.trigger) {
        ExecuteNowKeeps(venue, b, Activate(order));
      } else {
        ParkKeeps(venue.spec, b, order);
      }
    } else {
      ExecuteNowKeeps(venue, b, order);
    }
  }

  lemma HeadsHold(spec: InstrumentSpec, b: Book)
    requires spec.lotSize > 0 && WellFormed(spec, b)
    ensures b.stopBids != [] ==> b.stopBids[0].orders != []
    ensures b.stopAsks != [] ==> b.stopAsks[0].orders != []
  {}

  lemma PopCounts(b: Book, side: Side)
    requires b.Stops(side) != [] && b.Stops(side)[0].orders != []
    ensures var after := b.WithStops(side, PopFront(b.Stops(side)));
            var id := b.Stops(side)[0].orders[0].id;
            && Pending(after) + 1 == Pending(b)
            && LiveIds(b) == LiveIds(after) + multiset{id}
            && StopIds(b) == StopIds(after) + multiset{id}
  {
    hide LiveIds, StopIds, Ids, PopFront, Parked;
    var before := b.Stops(side);
    var after := PopFront(before);
    var id := before[0].orders[0].id;
    PopFrontCounts(before);
    StopsSwapped(b, side, after);
    CancelsMore(LiveIds(b), Ids(after), LiveIds(b.WithStops(side, after)), Ids(before), multiset{id});
    CancelsMore(StopIds(b), Ids(after), StopIds(b.WithStops(side, after)), Ids(before), multiset{id});
  }

  lemma PopStructured(spec: InstrumentSpec, b: Book, side: Side)
    requires spec.lotSize > 0 && Structured(spec, b) && b.Stops(side) != []
    ensures Structured(spec, b.WithStops(side, PopFront(b.Stops(side))))
    ensures var order := b.Stops(side)[0].orders[0];
            && order.kind.IsStop() && order.remaining % spec.lotSize == 0 && Admit(spec, order).Ok?
            && order.side == side && order.kind.trigger == b.Stops(side)[0].price
  {
    PopFrontKeepsStops(spec, side, b.Stops(side));
    assert StopLevelOk(spec, side, b.Stops(side)[0]);
  }

  function PoppedSide(b: Book): Side {
    if Fires(b, Bid) then Bid else Ask
  }

  /** A popped stop has left the stop book and its id is free again. */
  lemma PopKeeps(venue: Venue, b: Book)
    requires Ready(venue, b) && PopTriggered(b).Some?
    ensures var popped := PopTriggered(b).value;
            && WellFormed(venue.spec, popped.book)
            && popped.order.kind.IsStop() && Whole(venue, popped.order) && Admit(venue.spec, popped.order).Ok?
            && Pending(popped.book) + 1 == Pending(b)
            && LiveIds(b) == LiveIds(popped.book) + multiset{popped.order.id}
            && StopIds(b) == StopIds(popped.book) + multiset{popped.order.id}
  {
    hide LiveIds, Pending, StopIds, SideOk;
    var side := PoppedSide(b);
    PopCounts(b, side);
    PopStructured(venue.spec, b, side);
    FewerIds(LiveIds(PopTriggered(b).value.book), LiveIds(b));
  }

  lemma ActivatedKeeps(venue: Venue, b: Book)
    requires Ready(venue, b) && PopTriggered(b).Some?
    ensures WellFormed(venue.spec, Activated(venue, b).book)
    ensures Pending(Activated(venue, b).book) + 1 == Pending(b)
  {
    hide LiveIds, WellFormed, ExecuteNow;
    HeadsHold(venue.spec, b);
    PopKeeps(venue, b);
    ExecuteNowKeeps(venue, PopTriggered(b).value.book, Activate(PopTriggered(b).value.order));
  }

  /** What one turn of the cascade runs, and that it can go on afterwards. */
  lemma TurnKeeps(venue: Venue, b: Book)
    requires Ready(venue, b) && PopTriggered(b).Some?
    ensures var popped := PopTriggered(b).value;
            && Ready(venue, popped.book)
            && !Activate(popped.order).kind.IsStop() && Whole(venue, Activate(popped.order))
            && Activated(venue, b) == ExecuteNow(venue, popped.book, Activate(popped.order))
            && Ready(venue, Activated(venue, b).book)
            && Pending(Activated(venue, b).book) < Pending(b)
  {
    hide WellFormed, LiveIds, StopIds, ExecuteNow, Pending, PopTriggered, Conforming, Admit;
    PopKeeps(venue, b);
    ActivatedKeeps(venue, b);
  }

  /** One turn of the cascade. */
  lemma CascadeUnfolds(venue: Venue, b: Book)
    requires Ready(venue, b)
    ensures b.stopBids != [] ==> b.stopBids[0].orders != []
    ensures b.stopAsks != [] ==> b.stopAsks[0].orders != []
    ensures PopTriggered(b).None? ==> Cascade(venue, b) == Submission(b, [], None)
    ensures PopTriggered(b).Some? ==>
              && Ready(venue, PopTriggered(b).value.book)
              && !Activate(PopTriggered(b).value.order).kind.IsStop()
              && Whole(venue, Activate(PopTriggered(b).value.order))
              && var step := Activated(venue, b);
              && step == ExecuteNow(venue, PopTriggered(b).value.book, Activate(PopTriggered(b).value.order))
              && Ready(venue, step.book)
              && Pending(step.book) < Pending(b)
              && Cascade(venue, b) ==
                 match step.result
                 case Err(error) => Submission(step.book, [], Some(error))
                 case Ok(execution) =>
                   var rest := Cascade(venue, step.book);
                   Submission(rest.book, [execution] + rest.log, rest.error)
  {
    HeadsHold(venue.spec, b);
    hide WellFormed, Conforming, ExecuteNow, Activated, Pending, PopTriggered, Whole, Activate;
    if PopTriggered(b).Some? {
      TurnKeeps(venue, b);
    }
  }

  lemma {:induction false} CascadeKeeps(venue: Venue, b: Book)
    requires Ready(venue, b)
    ensures WellFormed(venue.spec, Cascade(venue, b).book)
    decreases Pending(b)
  {
    hide LiveIds, SideOk, Activated;
    if PopTriggered(b).Some? {
      ActivatedKeeps(venue, b);
      if Activated(venue, b).result.Ok? {
        CascadeKeeps(venue, Activated(venue, b).book);
      }
    }
  }

  lemma SequenceAdvances(spec: InstrumentSpec, b: Book)
    requires spec.lotSize > 0 && WellFormed(spec, b)
    ensures WellFormed(spec, b.(nextSeq := b.nextSeq + 1))
    ensures LiveIds(b.(nextSeq := b.nextSeq + 1)) == LiveIds(b)
  {}

  lemma SubmitKeeps(venue: Venue, b: Book, order: Order)
    requires Ready(venue, b) && Whole(venue, order)
    ensures WellFormed(venue.spec, Submit(venue, b, order).book)
  {
    hide LiveIds, Execute, Cascade, WellFormed;
    SequenceAdvances(venue.spec, b);
    var minted := order.(id := FromSequence(b.nextSeq));
    if Admit(venue.spec, order).Ok? {
      ExecuteKeeps(venue, b.(nextSeq := b.nextSeq + 1), minted);
      var step := Execute(venue, b.(nextSeq := b.nextSeq + 1), minted);
      if step.result.Ok? {
        CascadeKeeps(venue, step.book);
      }
    }
  }

  /** A submission part way through its cascade. */
  ghost predicate Continues(whole: Submission, log: seq<Execution>, rest: Submission) {
    whole == Submission(rest.book, log + rest.log, rest.error) && log != []
  }

  /** A submission, up to its cascade. */
  lemma SubmitUnfolds(venue: Venue, b: Book, order: Order)
    requires Ready(venue, b) && Whole(venue, order)
    ensures Ready(venue, b.(nextSeq := b.nextSeq + 1))
    ensures var done, minted := Submit(venue, b, order), order.(id := FromSequence(b.nextSeq));
            match Admit(venue.spec, order)
            case Err(reason) => done == Submission(b, [], Some(Rejected(reason)))
            case Ok(_) =>
              && Admit(venue.spec, minted).Ok? && Whole(venue, minted)
              && var step := Execute(venue, b.(nextSeq := b.nextSeq + 1), minted);
              && Ready(venue, step.book)
              && match step.result
                 case Err(error) => done == Submission(step.book, [], Some(error))
                 case Ok(execution) => Continues(done, [execution], Cascade(venue, step.book))
  {
    hide WellFormed, LiveIds, Execute, Cascade, Conforming;
    SequenceAdvances(venue.spec, b);
    var minted := order.(id := FromSequence(b.nextSeq));
    if Admit(venue.spec, order).Ok? {
      ExecuteKeeps(venue, b.(nextSeq := b.nextSeq + 1), minted);
    }
  }

  // ------------------------------------------------------------------ runs

  datatype Command = SubmitOrder(order: Order) | SeedOrder(order: Order) | Cancel(id: ExchangeId)

  /** Quantities come from the instrument's grid. */
  ghost predicate Legal(venue: Venue, command: Command)
    requires venue.Valid()
  {
    match command
    case SubmitOrder(order) => Whole(venue, order)
    case SeedOrder(order) => Whole(venue, order)
    case Cancel(_) => true
  }

  ghost predicate AllLegal(venue: Venue, commands: seq<Command>)
    requires venue.Valid()
  {
    forall i :: 0 <= i < |commands| ==> Legal(venue, commands[i])
  }

  ghost function Apply(venue: Venue, b: Book, command: Command): Book
    requires Ready(venue, b) && Legal(venue, command)
  {
    match command
    case SubmitOrder(order) => Submit(venue, b, order).book
    case SeedOrder(order) => AddOrder(venue.spec, b, order).book
    case Cancel(id) => CancelOrder(b, id).book
  }

  lemma ApplyKeeps(venue: Venue, b: Book, command: Command)
    requires Ready(venue, b) && Legal(venue, command)
    ensures WellFormed(venue.spec, Apply(venue, b, command))
  {
    match command
    case SubmitOrder(order) => SubmitKeeps(venue, b, order);
    case SeedOrder(order) => AddOrderKeeps(venue.spec, b, order);
    case Cancel(id) => CancelKeeps(venue.spec, b, id);
  }

  /** The book after a sequence of commands, failed ones included. */
  ghost function Run(venue: Venue, b: Book, commands: seq<Command>): Book
    requires Ready(venue, b) && AllLegal(venue, commands)
    decreases |commands|
  {
    if commands == [] then b
    else
      ApplyKeeps(venue, b, commands[0]);
      Run(venue, Apply(venue, b, commands[0]), commands[1..])
  }

  lemma EmptyIsWellFormed(spec: InstrumentSpec)
    requires spec.lotSize > 0
    ensures WellFormed(spec, EMPTY)
  {}

  /** The rules hold of every book any run reaches. */
  lemma {:induction false} RunKeeps(venue: Venue, b: Book, commands: seq<Command>)
    requires Ready(venue, b) && AllLegal(venue, commands)
    ensures WellFormed(venue.spec, Run(venue, b, commands))
    decreases |commands|
  {
    if commands != [] {
      ApplyKeeps(venue, b, commands[0]);
      RunKeeps(venue, Apply(venue, b, commands[0]), commands[1..]);
    }
  }
}
