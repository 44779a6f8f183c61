/** Seeding rests an order without matching it and takes the caller's word for its
    id and remainder. What that can break, and exactly when it does. */
module Seeding {
  import opened Sums
  import opened Wrappers
  import opened Instrument
  import opened Orders
  import opened Book
  import opened SweepFacts
  import opened Engine
  import opened Stock
  import opened Hollows
  import opened Discipline
  import opened Accounting

  /** Whether a limit price would trade against the best opposing level. */
  predicate CrossesBook(b: Book, side: Side, price: Price) {
    if side == Ask then b.bids != [] && price <= b.bids[0].price
    else b.asks != [] && price >= b.asks[0].price
  }

  lemma {:induction false} InsertHolds(ascending: bool, levels: seq<PriceLevel>, price: Price, order: Order)
    returns (i: nat, j: nat)
    ensures var after := Insert(ascending, levels, price, order);
            i < |after| && j < |after[i].orders| && after[i].orders[j] == order
  {
    i, j := 0, 0;
    if levels != [] && levels[0].price == price {
      j := |levels[0].orders|;
    } else if levels != [] && !Before(ascending, price, levels[0].price) {
      i, j := InsertHolds(ascending, levels[1..], price, order);
      i := i + 1;
    }
  }

  lemma FirstAfterInsert(ascending: bool, levels: seq<PriceLevel>, price: Price, order: Order)
    ensures var after := Insert(ascending, levels, price, order);
            && after != []
            && after[0].price ==
               if levels == [] || Before(ascending, price, levels[0].price) then price else levels[0].price
  {}

  /** Admission looks at the original quantity only. The rules survive exactly the
      seeds that rest whole lots, and the book stays stocked exactly by those that
      hold something. */
  lemma SeedingKeepsRulesExactlyWhen(spec: InstrumentSpec, b: Book, order: Order)
    requires spec.lotSize > 0 && WellFormed(spec, b) && AddOrder(spec, b, order).error.None?
    ensures WellFormed(spec, AddOrder(spec, b, order).book) <==> order.remaining % spec.lotSize == 0
    ensures BookStocked(b) ==> (BookStocked(AddOrder(spec, b, order).book) <==> order.remaining > 0)
  {
    hide LiveIds, Insert, Admit, SideOk, StopsOk, Distinct, SideStocked;
    var after := AddOrder(spec, b, order).book;
    if BookStocked(b) {
      AddStocked(spec, b, order);
    }
    if order.remaining % spec.lotSize == 0 {
      AddOrderKeeps(spec, b, order);
    } else {
      var stamped := order.(arrival := b.nextArrival);
      var i, j := InsertHolds(RestsAscending(order.side), b.Levels(order.side), order.kind.price, stamped);
      OffLotRemainder(spec, order.side, after.nextArrival, after.Levels(order.side), i, j);
    }
  }

  lemma OffLotRemainder(spec: InstrumentSpec, side: Side, bound: nat, levels: seq<PriceLevel>, i: nat, j: nat)
    requires spec.lotSize > 0 && i < |levels| && j < |levels[i].orders|
    requires levels[i].orders[j].remaining % spec.lotSize != 0
    ensures !SideOk(spec, side, bound, levels)
  {
    assert !LevelOk(spec, side, bound, levels[i]);
  }

  /** Seeding never matches, so it can cross the book: an uncrossed book stays
      uncrossed exactly when the seed's price does not cross it. */
  lemma SeedingCrossesExactlyWhen(spec: InstrumentSpec, b: Book, order: Order)
    requires Uncrossed(b) && AddOrder(spec, b, order).error.None?
    ensures Uncrossed(AddOrder(spec, b, order).book) <==> !CrossesBook(b, order.side, order.kind.price)
  {
    hide LiveIds, Admit, Insert;
    FirstAfterInsert(RestsAscending(order.side), b.Levels(order.side), order.kind.price,
                     order.(arrival := b.nextArrival));
  }

  // ---------------------------------------------------- ids a caller made up

  /** The order as it is run: a stop whose trigger has been reached is activated. */
  function Effective(b: Book, order: Order): Order {
    if order.kind.IsStop() && Triggered(b.last, order.side, order.kind.trigger) then Activate(order) else order
  }

  /** How much the order would get of the opposite side. */
  function Available(b: Book, now: Order): nat
    requires now.kind.Limit?
  {
    Within(b.Levels(Opposite(now.side)), now.side, now.client, Some(now.kind.price))
  }

  /** The order would leave a good-till-cancelled remainder. */
  predicate LeavesRemainder(b: Book, now: Order) {
    now.kind.Limit? && now.kind.tif == GTC && Available(b, now) < now.remaining
  }

  /** The book once a limit order has taken all it can get. */
  function Cleared(b: Book, now: Order): Book
    requires now.kind.Limit?
  {
    b.WithLevels(Opposite(now.side), Beyond(b.Levels(Opposite(now.side)), now.side, now.client, Some(now.kind.price)))
  }

  /** The id about to be minted is in the way: the order has to park while it is
      alive, or has to rest a remainder while it is alive past everything crossed. */
  ghost predicate Clashes(b: Book, order: Order) {
    var id, now := FromSequence(b.nextSeq), Effective(b, order);
    if now.kind.IsStop() then id in LiveIds(b)
    else LeavesRemainder(b, now) && id in LiveIds(Cleared(b, now))
  }

  lemma SweptLeaves(venue: Venue, b: Book, now: Order)
    requires Ready(venue, b) && Whole(venue, now) && now.kind.Limit?
    ensures var swept := SweepOf(venue, b, now, Some(now.kind.price));
            && swept.remaining == now.remaining - Min(now.remaining, Available(b, now))
            && (swept.remaining > 0 ==> b.WithLevels(Opposite(now.side), swept.levels) == Cleared(b, now))
  {
    hide LiveIds, Sweep, Within, Beyond;
    var side := Opposite(now.side);
    LevelOnLots(venue.spec, side, b.nextArrival, b.Levels(side));
    SweepExactly(venue.policy, venue.spec.lotSize, b.Levels(side), now, Some(now.kind.price), b.nextArrival);
  }

  /** One good-till-cancelled or immediate-or-cancel order, to the point of resting. */
  lemma LimitFailsExactlyWhen(venue: Venue, b: Book, order: Order, limit: Price, tif: TimeInForce)
    requires Ready(venue, b) && Whole(venue, order) && tif != FOK
    requires order.kind == Limit(limit, tif) && Admit(venue.spec, order).Ok?
    ensures var step := ProcessLimit(venue, b, order, limit, tif);
            && (step.result.Err? <==> LeavesRemainder(b, order) && order.id in LiveIds(Cleared(b, order)))
            && (step.result.Err? ==> step.result.error == ExchangeIdDuplicated && step.book == Cleared(b, order))
  {
    hide SweepOf, LiveIds, Insert, WellFormed, Admit, Available, Cleared;
    SweptLeaves(venue, b, order);
    AdmissionIgnoresSize(venue.spec, order, SweepOf(venue, b, order, Some(limit)).remaining, order.id);
  }

  lemma ExecuteNowFailsExactlyWhen(venue: Venue, b: Book, order: Order)
    requires Ready(venue, b) && Whole(venue, order) && !order.kind.IsStop() && Admit(venue.spec, order).Ok?
    ensures var step := ExecuteNow(venue, b, order);
            && (step.result.Err? <==> LeavesRemainder(b, order) && order.id in LiveIds(Cleared(b, order)))
            && (step.result.Err? ==> step.result.error == ExchangeIdDuplicated && step.book == Cleared(b, order))
  {
    hide SweepOf, LiveIds, WellFormed, Reach, ProcessLimit, Admit, Available, Cleared;
    if order.kind.Limit? && order.kind.tif != FOK {
      LimitFailsExactlyWhen(venue, b, order, order.kind.price, order.kind.tif);
    }
  }

  lemma ClashIgnoresId(b: Book, now: Order, id: ExchangeId)
    ensures LeavesRemainder(b, now.(id := id)) <==> LeavesRemainder(b, now)
    ensures now.kind.Limit? ==> Cleared(b, now.(id := id)) == Cleared(b, now)
  {
    hide Beyond, Within;
  }

  lemma AdvancedIsTheSame(b: Book, order: Order)
    ensures var advanced := b.(nextSeq := b.nextSeq + 1);
            && LiveIds(advanced) == LiveIds(b)
            && Effective(advanced, order) == Effective(b, order)
            && (LeavesRemainder(advanced, order) <==> LeavesRemainder(b, order))
            && (order.kind.Limit? ==> Cleared(advanced, order) == Cleared(b, order).(nextSeq := b.nextSeq + 1)
                                      && LiveIds(Cleared(advanced, order)) == LiveIds(Cleared(b, order)))
  {
    hide Beyond, Within;
  }

  /** Where a failed submission leaves the book. */
  function AfterFailure(b: Book, order: Order): Book {
    var now := Effective(b, order);
    (if now.kind.Limit? then Cleared(b, now) else b).(nextSeq := b.nextSeq + 1)
  }

  lemma ExecuteFailsExactlyWhen(venue: Venue, b: Book, order: Order)
    requires Ready(venue, b) && Whole(venue, order) && Admit(venue.spec, order).Ok?
    ensures var step, now := Execute(venue, b, order), Effective(b, order);
            && (step.result.Err? <==>
                  if now.kind.IsStop() then order.id in LiveIds(b)
                  else LeavesRemainder(b, now) && order.id in LiveIds(Cleared(b, now)))
            && (step.result.Err? ==>
                  && step.result.error == ExchangeIdDuplicated
                  && step.book == if now.kind.IsStop() then b else Cleared(b, now))
  {
    hide LiveIds, WellFormed, ExecuteNow, Admit, Cleared, LeavesRemainder, Insert;
    if !order.kind.IsStop() {
      ExecuteNowFailsExactlyWhen(venue, b, order);
    } else if Triggered(b.last, order.side, order.kind.trigger) {
      ActivationStaysAdmitted(venue.spec, order);
      ExecuteNowFailsExactlyWhen(venue, b, Activate(order));
    }
  }

  /** In every reachable book an admitted submission fails exactly when the id it is
      about to be given is in its way. A failure reports nothing, and the
      levels the order crossed are gone all the same. */
  lemma SubmissionFailsExactlyWhen(venue: Venue, b: Book, order: Order)
    requires Ready(venue, b) && Whole(venue, order) && Admit(venue.spec, order).Ok?
    ensures Submit(venue, b, order).error.Some? <==> Clashes(b, order)
    ensures Clashes(b, order) ==>
              Submit(venue, b, order) == Submission(AfterFailure(b, order), [], Some(ExchangeIdDuplicated))
  {
    hide LiveIds, WellFormed, Execute, Admit, Cascade, Submit, Cleared, Available;
    var minted := order.(id := FromSequence(b.nextSeq));
    var advanced := b.(nextSeq := b.nextSeq + 1);
    SubmitUnfolds(venue, b, order);
    var now := Effective(b, order);
    assert Effective(b, minted) == now.(id := minted.id);
    ClashIgnoresId(b, now, minted.id);
    AdvancedIsTheSame(b, minted);
    AdvancedIsTheSame(b, now.(id := minted.id));
    ExecuteFailsExactlyWhen(venue, advanced, minted);
    if Execute(venue, advanced, minted).result.Ok? {
      CascadeSettles(venue, Execute(venue, advanced, minted).book);
    }
  }

  /** What a failed submission moved: everything it reached was traded away, with
      its client's own orders cancelled, and nobody is told. */
  lemma FailureMoves(venue: Venue, b: Book, order: Order)
    requires Ready(venue, b) && Whole(venue, order) && Admit(venue.spec, order).Ok? && Clashes(b, order)
    ensures Swallows(venue, b, order, Submit(venue, b, order).book)
  {
    hide LiveIds, WellFormed, Admit, Submit, Within, Beyond, SweepOf, TotalDepth, ParkedDepth;
    SubmissionFailsExactlyWhen(venue, b, order);
    var now := Effective(b, order);
    if now.kind.IsStop() {
      SequenceIsNotDepth(b);
    } else {
      SweepOfBalances(venue, b, now, Some(now.kind.price));
      SweptLeaves(venue, b, now);
      SequenceIsNotDepth(Cleared(b, now));
    }
  }

  /** What a failed submission did to the books: the stop books and the last trade
      price stand, and depth is down by what was swept and never reported. */
  ghost predicate Swallows(venue: Venue, b: Book, order: Order, after: Book)
    requires Ready(venue, b) && Whole(venue, order)
  {
    var now := Effective(b, order);
    && ParkedDepth(after) == ParkedDepth(b) && after.last == b.last
    && (now.kind.IsStop() ==> TotalDepth(after) == TotalDepth(b))
    && (now.kind.Limit? ==>
          var swept := SweepOf(venue, b, now, Some(now.kind.price));
          && Traded(swept.trades) == Available(b, now)
          && TotalDepth(after) + Traded(swept.trades) + Quantity(swept.removed) == TotalDepth(b))
  }

  /** Every submission balances: a rejected one changes nothing, one that clashes
      with a seeded id swallows what it swept, any other is told by its log. */
  lemma EverySubmissionBalances(venue: Venue, b: Book, order: Order)
    requires Solid(venue, b) && Whole(venue, order)
    ensures var r := Submit(venue, b, order);
            if Admit(venue.spec, order).Err? then r.book == b && r.log == []
            else if Clashes(b, order) then
              r.error == Some(ExchangeIdDuplicated) && r.log == [] && Swallows(venue, b, order, r.book)
            else r.error.None? && Balances(b, order, r)
  {
    hide Balances, Swallows, Clashes, Admit, Submit, BookStocked, WellFormed;
    SubmitUnfolds(venue, b, order);
    if Admit(venue.spec, order).Ok? {
      SubmissionFailsExactlyWhen(venue, b, order);
      if Clashes(b, order) {
        FailureMoves(venue, b, order);
      } else {
        SubmitBalances(venue, b, order);
      }
    }
  }

  /** In every reachable book, seeded ones included, an admitted order can only
      fail because a seed has taken the very id the exchange is about to mint. */
  lemma OnlyATakenIdCanFail(venue: Venue, b: Book, order: Order)
    requires Ready(venue, b) && Whole(venue, order) && Admit(venue.spec, order).Ok?
    requires FromSequence(b.nextSeq) !in LiveIds(b)
    ensures Submit(venue, b, order).error.None?
  {
    hide LiveIds, WellFormed, ExecuteNow, Admit, Cascade, Insert;
    var minted := order.(id := FromSequence(b.nextSeq));
    var advanced := b.(nextSeq := b.nextSeq + 1);
    SequenceAdvances(venue.spec, b);
    AdmissionIgnoresSize(venue.spec, order, order.remaining, FromSequence(b.nextSeq));
    ExecuteKeeps(venue, advanced, minted);
    if !minted.kind.IsStop() {
      ExecuteNowSucceeds(venue, advanced, minted);
    } else if Triggered(b.last, minted.side, minted.kind.trigger) {
      ActivationStaysAdmitted(venue.spec, minted);
      ExecuteNowSucceeds(venue, advanced, Activate(minted));
    }
    if Execute(venue, advanced, minted).result.Ok? {
      CascadeSettles(venue, Execute(venue, advanced, minted).book);
    }
  }

  /** And a stop that has to park fails exactly then. */
  lemma ParkingFailsExactlyWhen(venue: Venue, b: Book, order: Order)
    requires Ready(venue, b) && Whole(venue, order) && Admit(venue.spec, order).Ok?
    requires order.kind.IsStop() && !Triggered(b.last, order.side, order.kind.trigger)
    ensures Submit(venue, b, order).error == Some(ExchangeIdDuplicated) <==> FromSequence(b.nextSeq) in LiveIds(b)
  {
    if FromSequence(b.nextSeq) !in LiveIds(b) {
      OnlyATakenIdCanFail(venue, b, order);
    } else {
      hide LiveIds, WellFormed, Admit, Cascade, Insert;
      SequenceAdvances(venue.spec, b);
      AdmissionIgnoresSize(venue.spec, order, order.remaining, FromSequence(b.nextSeq));
    }
  }

  // -------------------------------------------------------------- witnesses

  /** A one-cent tick and a one-unit lot, bounds at one of each. */
  const CENTS := InstrumentSpec(2, 0, 1, 1, 1, None, 1, None, None)

  function Seed(id: ExchangeId, side: Side, price: Price, remaining: Qty): Order {
    Order(id, "seeder", Limit(price, GTC), side, 1, remaining, 0, 0)
  }

  lemma SeedsAreAdmitted(order: Order)
    requires order.kind.Limit? && order.kind.price >= 1 && order.original >= 1
    ensures Admit(CENTS, order).Ok?
  {
    var prices := order.kind.Prices();
    assert prices == [order.kind.price] && prices[1..] == [];
    assert AdmitPrices(CENTS, prices[1..]) == Ok(());
  }

  /** Seeding an empty book, worked out. */
  lemma FirstSeed(order: Order)
    requires order.kind.Limit? && order.kind.price >= 1 && order.original >= 1
    ensures var added := AddOrder(CENTS, EMPTY, order);
            && added.error.None?
            && added.book == EMPTY.WithLevels(order.side, [PriceLevel(order.kind.price, [order.(arrival := 1)])])
                                  .(nextArrival := 2)
            && LiveIds(added.book) == multiset{order.id}
  {
    SeedsAreAdmitted(order);
    AddOrderCounts(CENTS, EMPTY, order);
  }

  /** A second ask behind the first. */
  lemma NextSeed(first: Order, order: Order)
    requires first.kind.Limit? && first.kind.price >= 1 && first.original >= 1 && first.side == Ask
    requires order.kind.Limit? && order.kind.price > first.kind.price && order.original >= 1 && order.side == Ask
    requires first.id != order.id
    ensures var added := AddOrder(CENTS, AddOrder(CENTS, EMPTY, first).book, order);
            && added.error.None?
            && added.book.asks == [PriceLevel(first.kind.price, [first.(arrival := 1)]),
                                   PriceLevel(order.kind.price, [order.(arrival := 2)])]
  {
    FirstSeed(first);
    SeedsAreAdmitted(order);
    hide LiveIds, Admit;
    var b := AddOrder(CENTS, EMPTY, first).book;
    var nothing: seq<PriceLevel> := [];
    assert b.asks[1..] == nothing;
    assert Insert(true, nothing, order.kind.price, order.(arrival := 2)) ==
           [PriceLevel(order.kind.price, [order.(arrival := 2)])];
  }

  /** Two admitted seeds are enough to cross an empty book. */
  lemma SeedsCanCross()
    ensures var first := AddOrder(CENTS, EMPTY, Seed(Named("b"), Bid, 101, 1));
            var second := AddOrder(CENTS, first.book, Seed(Named("a"), Ask, 100, 1));
            first.error.None? && second.error.None? && !Uncrossed(second.book)
  {
    var bid, ask := Seed(Named("b"), Bid, 101, 1), Seed(Named("a"), Ask, 100, 1);
    FirstSeed(bid);
    SeedsAreAdmitted(ask);
    hide LiveIds;
    SeedingCrossesExactlyWhen(CENTS, AddOrder(CENTS, EMPTY, bid).book, ask);
  }

  /** And one admitted seed that holds nothing leaves a hollow order resting. */
  lemma SeedCanHoldNothing()
    ensures var added := AddOrder(CENTS, EMPTY, Seed(Named("a"), Ask, 100, 0));
            added.error.None? && !BookStocked(added.book)
  {
    var seed := Seed(Named("a"), Ask, 100, 0);
    FirstSeed(seed);
    AddStocked(CENTS, EMPTY, seed);
  }

  /** A seed that took the first id the exchange will mint: the first order that
      has to rest is refused, under any policy. */
  lemma SeedCanTakeTheNextId(venue: Venue)
    requires venue.Valid() && venue.spec == CENTS
    ensures var seeded := AddOrder(CENTS, EMPTY, Seed(FromSequence(1), Bid, 100, 1));
            && seeded.error.None? && Solid(venue, seeded.book)
            && Submit(venue, seeded.book, Order(Named("t"), "taker", Limit(200, GTC), Ask, 1, 1, 0, 0)).error
               == Some(ExchangeIdDuplicated)
  {
    var seed, order := Seed(FromSequence(1), Bid, 100, 1), Order(Named("t"), "taker", Limit(200, GTC), Ask, 1, 1, 0, 0);
    FirstSeed(seed);
    EmptyIsWellFormed(CENTS);
    AddOrderKeeps(CENTS, EMPTY, seed);
    AddStocked(CENTS, EMPTY, seed);
    SeedsAreAdmitted(order);
    var b := AddOrder(CENTS, EMPTY, seed).book;
    hide LiveIds, Submit, WellFormed;
    assert Beyond(b.bids, Ask, "taker", Some(200)) == b.bids && Within(b.bids, Ask, "taker", Some(200)) == 0;
    assert Cleared(b, order) == b;
    SubmissionFailsExactlyWhen(venue, b, order);
  }

  /** The same seed behind a resting ask: a bid takes the ask, cannot rest what is
      left of it, and is refused; the ask is gone and no trade is reported. */
  lemma FailureCanSwallowTrades(venue: Venue)
    requires venue.Valid() && venue.spec == CENTS
    ensures var first := AddOrder(CENTS, EMPTY, Seed(FromSequence(1), Bid, 50, 1));
            var second := AddOrder(CENTS, first.book, Seed(Named("a"), Ask, 100, 1));
            && second.error.None? && Solid(venue, second.book) && TotalDepth(second.book) == 2
            && var failed := Submit(venue, second.book, Order(Named("t"), "taker", Limit(100, GTC), Bid, 2, 2, 0, 0));
            failed.error == Some(ExchangeIdDuplicated) && failed.log == [] && TotalDepth(failed.book) == 1
  {
    var bid, ask := Seed(FromSequence(1), Bid, 50, 1), Seed(Named("a"), Ask, 100, 1);
    var order := Order(Named("t"), "taker", Limit(100, GTC), Bid, 2, 2, 0, 0);
    FirstSeed(bid);
    EmptyIsWellFormed(CENTS);
    AddOrderKeeps(CENTS, EMPTY, bid);
    AddStocked(CENTS, EMPTY, bid);
    var b := AddOrder(CENTS, EMPTY, bid).book;
    SeedsAreAdmitted(ask);
    SeedsAreAdmitted(order);
    AddOrderKeeps(CENTS, b, ask);
    AddStocked(CENTS, b, ask);
    AddOrderCounts(CENTS, b, ask);
    TwoSeeds(b, AddOrder(CENTS, b, ask).book, order);
    hide LiveIds, Submit, WellFormed, AddOrder, BookStocked, Cleared, LeavesRemainder;
    SubmissionFailsExactlyWhen(venue, AddOrder(CENTS, b, ask).book, order);
  }

  lemma TwoSeeds(b: Book, c: Book, order: Order)
    requires b == EMPTY.WithLevels(Bid, [PriceLevel(50, [Seed(FromSequence(1), Bid, 50, 1).(arrival := 1)])])
                       .(nextArrival := 2)
    requires c == b.WithLevels(Ask, [PriceLevel(100, [Seed(Named("a"), Ask, 100, 1).(arrival := 2)])])
                   .(nextArrival := 3)
    requires order == Order(Named("t"), "taker", Limit(100, GTC), Bid, 2, 2, 0, 0)
    ensures LeavesRemainder(c, order) && FromSequence(1) in LiveIds(Cleared(c, order))
    ensures TotalDepth(c) == 2 && TotalDepth(AfterFailure(c, order)) == 1
  {
    OneOrderLevel(c.asks[0]);
    OneOrderLevel(c.bids[0]);
    hide Foreign, Quantity;
    var nothing: seq<PriceLevel> := [];
    assert c.asks[1..] == nothing && c.bids[1..] == nothing;
    assert Beyond(nothing, Bid, "taker", Some(100)) == nothing && Within(nothing, Bid, "taker", Some(100)) == 0;
    assert Depth(nothing) == 0;
  }

  lemma OneOrderLevel(level: PriceLevel)
    requires |level.orders| == 1
    ensures Quantity(level.orders) == level.orders[0].remaining
    ensures level.orders[0].client != "taker" ==>
              && Foreign(level.orders, "taker") == level.orders
              && Stuck(level, "taker") == if level.orders[0].remaining == 0 then level.orders else []
  {
    var nobody: seq<Order> := [];
    assert level.orders[..0] == nobody && Foreign(nobody, "taker") == nobody && Hollow(nobody) == nobody;
  }

  /** A hollow seed in front of a real one: a fill-or-kill bid for the real one is
      told it was filled, and has traded nothing. */
  lemma HollowSeedFoolsFok(venue: Venue)
    requires venue.Valid() && venue.spec == CENTS
    ensures var first := AddOrder(CENTS, EMPTY, Seed(Named("h"), Ask, 100, 0));
            var second := AddOrder(CENTS, first.book, Seed(Named("a"), Ask, 101, 1));
            && first.error.None? && second.error.None? && Ready(venue, second.book)
            && var order := Order(Named("t"), "taker", Limit(101, FOK), Bid, 1, 1, 0, 0);
            && Whole(venue, order)
            && var e := ProcessFok(venue, second.book, order, 101).result.value;
            e.outcome == Filled && Traded(e.trades) == 0
  {
    hide LiveIds, WellFormed, AddOrder, ProcessFok, Within, Reach;
    var order := Order(Named("t"), "taker", Limit(101, FOK), Bid, 1, 1, 0, 0);
    HollowBook(venue);
    var first := AddOrder(CENTS, EMPTY, Seed(Named("h"), Ask, 100, 0));
    var c := AddOrder(CENTS, first.book, Seed(Named("a"), Ask, 101, 1)).book;
    HollowInFront(c.asks, order);
    FokKeepsItsPromiseExactlyWhen(venue, c, order, 101);
  }

  lemma HollowBook(venue: Venue)
    requires venue.Valid() && venue.spec == CENTS
    ensures var first := AddOrder(CENTS, EMPTY, Seed(Named("h"), Ask, 100, 0));
            var second := AddOrder(CENTS, first.book, Seed(Named("a"), Ask, 101, 1));
            && first.error.None? && second.error.None? && Ready(venue, second.book)
            && second.book.asks == [PriceLevel(100, [Seed(Named("h"), Ask, 100, 0).(arrival := 1)]),
                                    PriceLevel(101, [Seed(Named("a"), Ask, 101, 1).(arrival := 2)])]
  {
    hide LiveIds, WellFormed, AddOrder;
    var hollow, ask := Seed(Named("h"), Ask, 100, 0), Seed(Named("a"), Ask, 101, 1);
    FirstSeed(hollow);
    assert hollow.id.name[0] != ask.id.name[0];
    NextSeed(hollow, ask);
    EmptyIsWellFormed(CENTS);
    AddOrderKeeps(CENTS, EMPTY, hollow);
    AddOrderKeeps(CENTS, AddOrder(CENTS, EMPTY, hollow).book, ask);
  }

  lemma HollowInFront(asks: seq<PriceLevel>, order: Order)
    requires asks == [PriceLevel(100, [Seed(Named("h"), Ask, 100, 0).(arrival := 1)]),
                      PriceLevel(101, [Seed(Named("a"), Ask, 101, 1).(arrival := 2)])]
    requires order == Order(Named("t"), "taker", Limit(101, FOK), Bid, 1, 1, 0, 0)
    ensures Within(asks, Bid, "taker", Some(101)) == 0 && Reach(asks, order, Some(101)) == 1
  {
    OneOrderLevel(asks[0]);
    OneOrderLevel(asks[1]);
    hide Foreign, Quantity, Stuck;
    assert Reach(asks[1..], order, Some(101)) == 1 + Reach(asks[1..][1..], order, Some(101));
  }
}
