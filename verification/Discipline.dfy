/** What submissions promise. In every reachable book a cascade never fails and no
    satisfied stop is left pending; in books that only submissions and cancellations
    have touched no two sides cross and an admitted order is never refused. */
module Discipline {
  import opened Wrappers
  import opened Instrument
  import opened Orders
  import opened Book
  import opened SweepFacts
  import opened LevelFacts
  import opened Engine
  import opened Stock

  ghost predicate Minted(ids: multiset<ExchangeId>, nextSeq: nat) {
    forall id :: id in ids ==> id.FromSequence? && id.sequence < nextSeq
  }

  /** The best bid is strictly below the best ask. */
  ghost predicate Uncrossed(b: Book) {
    b.bids != [] && b.asks != [] ==> b.bids[0].price < b.asks[0].price
  }

  ghost predicate Sound(venue: Venue, b: Book) {
    Solid(venue, b) && Minted(LiveIds(b), b.nextSeq) && Uncrossed(b)
  }

  /** No pending stop is satisfied by the last trade price. */
  ghost predicate Quiet(b: Book) {
    b.last.Some? ==>
      && (forall i :: 0 <= i < |b.stopBids| ==> b.stopBids[i].price > b.last.value)
      && (forall i :: 0 <= i < |b.stopAsks| ==> b.stopAsks[i].price < b.last.value)
  }

  ghost predicate Orderly(venue: Venue, b: Book) {
    Sound(venue, b) && Quiet(b)
  }

  // --------------------------------------------------------------- uncrossed

  /** The side an order rests on stays clear of the other one: whatever a sweep
      leaves cannot cross what the sweep could not reach. */
  lemma SweepClearsTheWay(venue: Venue, b: Book, order: Order, limit: Price)
    requires Solid(venue, b) && Whole(venue, order) && Uncrossed(b)
    ensures var swept := SweepOf(venue, b, order, Some(limit));
            var after := b.WithLevels(Opposite(order.side), swept.levels);
            && Uncrossed(after)
            && (swept.remaining > 0 && swept.levels != [] ==>
                  if order.side == Bid then swept.levels[0].price > limit else swept.levels[0].price < limit)
  {
    var side := Opposite(order.side);
    LevelOnLots(venue.spec, side, b.nextArrival, b.Levels(side));
    SweepKeepsOrder(venue.spec, venue.policy, side, b.nextArrival, b.Levels(side), order, Some(limit), b.nextArrival);
    SweepReaches(venue.spec, venue.policy, side, b.nextArrival, b.Levels(side), order, Some(limit), b.nextArrival);
  }

  lemma MarketSweepStaysUncrossed(venue: Venue, b: Book, order: Order)
    requires Ready(venue, b) && Whole(venue, order) && Uncrossed(b)
    ensures Uncrossed(b.WithLevels(Opposite(order.side), SweepOf(venue, b, order, None).levels))
  {
    var side := Opposite(order.side);
    LevelOnLots(venue.spec, side, b.nextArrival, b.Levels(side));
    SweepKeepsOrder(venue.spec, venue.policy, side, b.nextArrival, b.Levels(side), order, None, b.nextArrival);
  }

  lemma RestingStaysUncrossed(spec: InstrumentSpec, b: Book, order: Order)
    requires Uncrossed(b) && order.kind.Limit?
    requires b.Levels(Opposite(order.side)) != [] ==>
               if order.side == Bid then b.asks[0].price > order.kind.price else b.bids[0].price < order.kind.price
    ensures Uncrossed(AddOrder(spec, b, order).book)
  {
    hide LiveIds, Admit, Insert;
    InsertHead(RestsAscending(order.side), b.Levels(order.side), order.kind.price, order.(arrival := b.nextArrival));
  }

  // ------------------------------------------------------------ one execution

  lemma AdmissionIgnoresSize(spec: InstrumentSpec, order: Order, remaining: nat, id: ExchangeId)
    ensures Admit(spec, order.(remaining := remaining)) == Admit(spec, order)
    ensures Admit(spec, order.(id := id)) == Admit(spec, order)
  {}

  /** A stop that was admitted is still admitted once it triggers. */
  lemma ActivationStaysAdmitted(spec: InstrumentSpec, order: Order)
    requires order.kind.IsStop() && Admit(spec, order).Ok?
    ensures Admit(spec, Activate(order)).Ok?
  {
    match order.kind
    case StopMarket(trigger) =>
      assert AdmitPrices(spec, []) == Ok(());
    case StopLimit(trigger, price, tif) =>
      assert [trigger, price][1..] == [price];
      assert [price][1..] == [];
      assert AdmitPrices(spec, [price]).Ok?;
  }

  /** Matching leaves the book uncrossed, whether or not the remainder could rest. */
  lemma ProcessLimitStaysUncrossed(venue: Venue, b: Book, order: Order, limit: Price, tif: TimeInForce)
    requires Solid(venue, b) && Whole(venue, order) && Uncrossed(b) && tif != FOK && order.kind == Limit(limit, tif)
    ensures Uncrossed(ProcessLimit(venue, b, order, limit, tif).book)
  {
    hide SweepOf, LiveIds, Insert, WellFormed, Admit, BookStocked;
    SweepClearsTheWay(venue, b, order, limit);
    var swept := SweepOf(venue, b, order, Some(limit));
    if swept.remaining > 0 {
      RestingStaysUncrossed(venue.spec, b.WithLevels(Opposite(order.side), swept.levels),
                            order.(remaining := swept.remaining));
    }
  }

  lemma ExecuteNowStaysUncrossed(venue: Venue, b: Book, order: Order)
    requires Solid(venue, b) && Whole(venue, order) && Uncrossed(b) && !order.kind.IsStop()
    ensures Uncrossed(ExecuteNow(venue, b, order).book)
  {
    hide SweepOf, LiveIds, WellFormed, Reach, ProcessLimit, BookStocked;
    match order.kind
    case Limit(price, tif) =>
      if tif == FOK {
        SweepClearsTheWay(venue, b, order, price);
      } else {
        ProcessLimitStaysUncrossed(venue, b, order, price, tif);
      }
    case Market =>
      MarketSweepStaysUncrossed(venue, b, order);
  }

  // -------------------------------------------------- one execution succeeds

  lemma LimitSucceeds(venue: Venue, b: Book, order: Order, limit: Price, tif: TimeInForce)
    requires Ready(venue, b) && Whole(venue, order) && tif != FOK
    requires order.kind == Limit(limit, tif) && Admit(venue.spec, order).Ok? && order.id !in LiveIds(b)
    ensures ProcessLimit(venue, b, order, limit, tif).result.Ok?
  {
    hide SweepOf, LiveIds, Insert, WellFormed, Admit;
    SweptIds(venue, b, order, Some(limit));
    var swept := SweepOf(venue, b, order, Some(limit));
    AdmissionIgnoresSize(venue.spec, order, swept.remaining, order.id);
    assert order.id !in LiveIds(b.WithLevels(Opposite(order.side), swept.levels));
  }

  /** An admitted order whose id is free never fails. */
  lemma ExecuteNowSucceeds(venue: Venue, b: Book, order: Order)
    requires Ready(venue, b) && Whole(venue, order) && !order.kind.IsStop()
    requires Admit(venue.spec, order).Ok? && order.id !in LiveIds(b)
    ensures ExecuteNow(venue, b, order).result.Ok?
  {
    hide SweepOf, LiveIds, WellFormed, Reach, ProcessLimit, Admit;
    if order.kind.Limit? && order.kind.tif != FOK {
      LimitSucceeds(venue, b, order, order.kind.price, order.kind.tif);
    }
  }

  lemma ExecuteNowStaysSound(venue: Venue, b: Book, order: Order)
    requires Sound(venue, b) && Whole(venue, order) && !order.kind.IsStop()
    requires Admit(venue.spec, order).Ok? && order.id !in LiveIds(b)
    requires order.id.FromSequence? && order.id.sequence < b.nextSeq
    ensures ExecuteNow(venue, b, order).result.Ok?
    ensures Sound(venue, ExecuteNow(venue, b, order).book)
    ensures SameStops(b, ExecuteNow(venue, b, order).book)
  {
    hide LiveIds, WellFormed, ExecuteNow, Uncrossed, BookStocked;
    ExecuteNowSucceeds(venue, b, order);
    ExecuteNowStaysUncrossed(venue, b, order);
    ExecuteNowStaysStocked(venue, b, order);
    ExecuteNowKeeps(venue, b, order);
    MintedGrows(LiveIds(b), LiveIds(ExecuteNow(venue, b, order).book), order.id, b.nextSeq);
  }

  lemma MintedGrows(ids: multiset<ExchangeId>, after: multiset<ExchangeId>, id: ExchangeId, nextSeq: nat)
    requires Minted(ids, nextSeq) && after <= ids + multiset{id}
    requires id.FromSequence? && id.sequence < nextSeq
    ensures Minted(after, nextSeq)
  {
    forall other | other in after
      ensures other.FromSequence? && other.sequence < nextSeq
    {
      assert other in ids + multiset{id};
    }
  }

  // ------------------------------------------------------------------ cascade

  /** Nothing left to pop is the same as every pending stop being out of reach:
      the heads of the stop books are the nearest to firing. */
  lemma NothingToPopIsQuiet(venue: Venue, b: Book)
    requires Ready(venue, b)
    ensures PopTriggered(b).None? <==> Quiet(b)
  {
    hide LiveIds, SideOk, StopLevelsOk, Distinct;
    HeadsHold(venue.spec, b);
    if PopTriggered(b).None? && b.last.Some? {
      forall i | 0 <= i < |b.stopBids|
        ensures b.stopBids[i].price > b.last.value
      {
        assert i == 0 || Before(true, b.stopBids[0].price, b.stopBids[i].price);
      }
      forall i | 0 <= i < |b.stopAsks|
        ensures b.stopAsks[i].price < b.last.value
      {
        assert i == 0 || Before(false, b.stopAsks[0].price, b.stopAsks[i].price);
      }
    }
  }

  lemma PopStaysSound(venue: Venue, b: Book)
    requires Sound(venue, b) && PopTriggered(b).Some?
    ensures var popped := PopTriggered(b).value;
            && Sound(venue, popped.book)
            && popped.book.nextSeq == b.nextSeq
            && Whole(venue, Activate(popped.order)) && !Activate(popped.order).kind.IsStop()
            && Admit(venue.spec, Activate(popped.order)).Ok?
            && popped.order.id == Activate(popped.order).id
            && popped.order.id !in LiveIds(popped.book)
            && popped.order.id.FromSequence? && popped.order.id.sequence < b.nextSeq
  {
    hide LiveIds, SideOk, Pending, StopIds;
    PopKeeps(venue, b);
    var popped := PopTriggered(b).value;
    ActivationStaysAdmitted(venue.spec, popped.order);
    PoppedIsFree(LiveIds(b), LiveIds(popped.book), popped.order.id);
  }

  lemma PoppedIsFree(ids: multiset<ExchangeId>, after: multiset<ExchangeId>, id: ExchangeId)
    requires Distinct(ids) && ids == after + multiset{id}
    ensures id !in after && id in ids && after <= ids
  {
    assert ids[id] == after[id] + 1;
  }

  lemma ActivationSucceeds(venue: Venue, b: Book)
    requires Ready(venue, b) && PopTriggered(b).Some?
    ensures Activated(venue, b).result.Ok?
    ensures Activated(venue, b).book.nextSeq == b.nextSeq
  {
    hide LiveIds, WellFormed, ExecuteNow, Admit, PopFront, Pending, StopIds;
    PopKeeps(venue, b);
    var popped := PopTriggered(b).value;
    ActivationStaysAdmitted(venue.spec, popped.order);
    RulesSayDistinct(venue.spec, b);
    PoppedIsFree(LiveIds(b), LiveIds(popped.book), popped.order.id);
    ExecuteNowSucceeds(venue, popped.book, Activate(popped.order));
    ExecuteNowKeeps(venue, popped.book, Activate(popped.order));
  }

  lemma RulesSayDistinct(spec: InstrumentSpec, b: Book)
    requires spec.lotSize > 0 && WellFormed(spec, b)
    ensures Distinct(LiveIds(b))
  {}

  /** In every reachable book the cascade terminates, never fails — a stop's id is
      free the moment it is popped — and leaves no satisfied stop behind. */
  lemma {:induction false} CascadeSettles(venue: Venue, b: Book)
    requires Ready(venue, b)
    ensures Cascade(venue, b).error.None?
    ensures Quiet(Cascade(venue, b).book)
    ensures Cascade(venue, b).book.nextSeq == b.nextSeq
    decreases Pending(b)
  {
    hide LiveIds, WellFormed, Activated, Quiet, PopTriggered, Pending, Cascade;
    NothingToPopIsQuiet(venue, b);
    CascadeUnfolds(venue, b);
    if PopTriggered(b).Some? {
      ActivationSucceeds(venue, b);
      CascadeSettles(venue, Activated(venue, b).book);
    }
  }

  lemma {:induction false} CascadeStaysSound(venue: Venue, b: Book)
    requires Sound(venue, b)
    ensures Sound(venue, Cascade(venue, b).book)
    decreases Pending(b)
  {
    hide LiveIds, WellFormed, Activated, Uncrossed, Minted, BookStocked, PopTriggered, Pending, Cascade;
    CascadeUnfolds(venue, b);
    if PopTriggered(b).Some? {
      ActivatedStaysSound(venue, b);
      CascadeStaysSound(venue, Activated(venue, b).book);
    }
  }

  lemma ActivatedStaysSound(venue: Venue, b: Book)
    requires Sound(venue, b) && PopTriggered(b).Some?
    ensures Activated(venue, b).result.Ok?
    ensures Sound(venue, Activated(venue, b).book)
    ensures Activated(venue, b).book.nextSeq == b.nextSeq
  {
    hide LiveIds, WellFormed, ExecuteNow, Uncrossed, Minted, BookStocked, PopFront, Pending, StopIds;
    PopKeeps(venue, b);
    PopStaysSound(venue, b);
    ExecuteNowStaysSound(venue, PopTriggered(b).value.book, Activate(PopTriggered(b).value.order));
  }

  // ------------------------------------------------------------------- submit

  lemma FreshId(ids: multiset<ExchangeId>, nextSeq: nat)
    requires Minted(ids, nextSeq)
    ensures FromSequence(nextSeq) !in ids
    ensures Minted(ids, nextSeq + 1)
  {}

  lemma ExecuteStaysSound(venue: Venue, b: Book, order: Order)
    requires Sound(venue, b) && Whole(venue, order) && Admit(venue.spec, order).Ok?
    requires order.id !in LiveIds(b) && order.id.FromSequence? && order.id.sequence < b.nextSeq
    ensures Execute(venue, b, order).result.Ok?
    ensures Sound(venue, Execute(venue, b, order).book)
    ensures Execute(venue, b, order).book.nextSeq == b.nextSeq
  {
    hide LiveIds, WellFormed, ExecuteNow, Minted, Insert, SideStocked;
    if order.kind.IsStop() && !Triggered(b.last, order.side, order.kind.trigger) {
      ParkKeeps(venue.spec, b, order);
      MintedGrows(LiveIds(b), LiveIds(Park(b, order).book), order.id, b.nextSeq);
    } else {
      if order.kind.IsStop() {
        ActivationStaysAdmitted(venue.spec, order);
      }
      var now := if order.kind.IsStop() then Activate(order) else order;
      ExecuteNowStaysSound(venue, b, now);
    }
  }

  /** Admission makes submission total: an admitted order never yields an error,
      through any number of triggered stops, and a refused one changes nothing. */
  lemma SubmitIsTotal(venue: Venue, b: Book, order: Order)
    requires Orderly(venue, b) && Whole(venue, order)
    ensures Submit(venue, b, order).error ==
            (match Admit(venue.spec, order) case Ok(_) => None case Err(reason) => Some(Rejected(reason)))
    ensures Admit(venue.spec, order).Err? ==>
              Submit(venue, b, order).book == b && Submit(venue, b, order).log == []
    ensures Admit(venue.spec, order).Ok? ==>
              && Submit(venue, b, order).log != []
              && Submit(venue, b, order).book.nextSeq == b.nextSeq + 1
              && ReportOf(Submit(venue, b, order).log).orderId == FromSequence(b.nextSeq)
    ensures Orderly(venue, Submit(venue, b, order).book)
  {
    if Admit(venue.spec, order).Ok? {
      SubmitSettles(venue, b, order);
    }
  }

  lemma SubmitSettles(venue: Venue, b: Book, order: Order)
    requires Orderly(venue, b) && Whole(venue, order) && Admit(venue.spec, order).Ok?
    ensures Submit(venue, b, order).error.None?
    ensures Orderly(venue, Submit(venue, b, order).book)
    ensures Submit(venue, b, order).log != []
    ensures Submit(venue, b, order).log[0].order.id == FromSequence(b.nextSeq)
    ensures Submit(venue, b, order).book.nextSeq == b.nextSeq + 1
  {
    hide LiveIds, WellFormed, Execute, Minted, Quiet, Cascade, Admit, SideStocked, Submit, Uncrossed;
    SubmitUnfolds(venue, b, order);
    var minted := order.(id := FromSequence(b.nextSeq));
    var advanced := b.(nextSeq := b.nextSeq + 1);
    FreshId(LiveIds(b), b.nextSeq);
    SequenceAdvances(venue.spec, b);
    UncrossedIgnoresSequence(b);
    AdmissionIgnoresSize(venue.spec, order, order.remaining, FromSequence(b.nextSeq));
    ExecuteStaysSound(venue, advanced, minted);
    ExecuteNames(venue, advanced, minted);
    CascadeSettles(venue, Execute(venue, advanced, minted).book);
    CascadeStaysSound(venue, Execute(venue, advanced, minted).book);
  }

  lemma UncrossedIgnoresSequence(b: Book)
    requires Uncrossed(b)
    ensures Uncrossed(b.(nextSeq := b.nextSeq + 1))
  {}

  /** A report carries the id of the order it is about. */
  lemma ExecuteNames(venue: Venue, b: Book, order: Order)
    requires Ready(venue, b) && Whole(venue, order) && Admit(venue.spec, order).Ok?
    ensures var step := Execute(venue, b, order);
            step.result.Ok? ==> step.result.value.order.id == order.id
  {
    hide LiveIds, WellFormed, SweepOf, Insert, AddOrder, Reach;
  }

  lemma CancelStaysOrderly(venue: Venue, b: Book, id: ExchangeId)
    requires Orderly(venue, b)
    ensures Orderly(venue, CancelOrder(b, id).book)
  {
    hide LiveIds, WellFormed, Quiet, Uncrossed, BookStocked;
    CancelKeeps(venue.spec, b, id);
    CancelStaysStocked(b, id);
    if id in LiveIds(b) {
      CancelStaysUncrossed(venue.spec, b, id);
      CancelStaysQuiet(b, id);
    }
  }

  lemma CancelStaysUncrossed(spec: InstrumentSpec, b: Book, id: ExchangeId)
    requires spec.lotSize > 0 && WellFormed(spec, b) && Uncrossed(b)
    ensures Uncrossed(CancelOrder(b, id).book)
  {
    hide LiveIds, Unlink, LevelsOk;
    UnlinkSorted(false, b.bids, id);
    UnlinkSorted(true, b.asks, id);
  }

  lemma CancelStaysQuiet(b: Book, id: ExchangeId)
    requires Quiet(b)
    ensures Quiet(CancelOrder(b, id).book)
  {
    hide LiveIds, Unlink, LevelsOk, WellFormed;
    if b.last.Some? {
      UnlinkStaysBehind(true, b.stopBids, id, b.last.value);
      UnlinkStaysBehind(false, b.stopAsks, id, b.last.value);
    }
  }

  // --------------------------------------------------------------------- runs

  /** A failed execution moves no stop and no last trade price. */
  lemma FailureStaysQuiet(venue: Venue, b: Book, order: Order)
    requires Ready(venue, b) && Quiet(b) && Whole(venue, order) && Admit(venue.spec, order).Ok?
    requires Execute(venue, b, order).result.Err?
    ensures Quiet(Execute(venue, b, order).book)
  {
    hide LiveIds, WellFormed, SweepOf, Admit, AddOrder, Insert, Reach;
  }

  lemma SubmitStaysQuiet(venue: Venue, b: Book, order: Order)
    requires Ready(venue, b) && Quiet(b) && Whole(venue, order)
    ensures Quiet(Submit(venue, b, order).book)
  {
    hide LiveIds, WellFormed, Execute, Cascade, Admit, Submit;
    SubmitUnfolds(venue, b, order);
    if Admit(venue.spec, order).Ok? {
      var advanced, minted := b.(nextSeq := b.nextSeq + 1), order.(id := FromSequence(b.nextSeq));
      if Execute(venue, advanced, minted).result.Ok? {
        CascadeSettles(venue, Execute(venue, advanced, minted).book);
      } else {
        FailureStaysQuiet(venue, advanced, minted);
      }
    }
  }

  /** No run leaves a satisfied stop pending, whatever it seeds and whatever fails. */
  lemma {:induction false} RunsAreQuiet(venue: Venue, b: Book, commands: seq<Command>)
    requires Ready(venue, b) && Quiet(b) && AllLegal(venue, commands)
    ensures Quiet(Run(venue, b, commands))
    decreases |commands|
  {
    hide Apply, WellFormed, Quiet;
    if commands != [] {
      ApplyKeeps(venue, b, commands[0]);
      ApplyStaysQuiet(venue, b, commands[0]);
      RunsAreQuiet(venue, Apply(venue, b, commands[0]), commands[1..]);
    }
  }

  lemma ApplyStaysQuiet(venue: Venue, b: Book, command: Command)
    requires Ready(venue, b) && Quiet(b) && Legal(venue, command)
    ensures Quiet(Apply(venue, b, command))
  {
    hide LiveIds, WellFormed, Submit, CancelOrder, Admit, Insert;
    match command
    case SubmitOrder(order) => SubmitStaysQuiet(venue, b, order);
    case SeedOrder(_) =>
    case Cancel(id) => CancelStaysQuiet(b, id);
  }

  ghost predicate NoSeeding(commands: seq<Command>) {
    forall i :: 0 <= i < |commands| ==> !commands[i].SeedOrder?
  }

  /** Every book reached by submissions and cancellations from an orderly one is
      orderly: well formed, uncrossed, only minted ids alive, no stop the last
      trade has satisfied. */
  lemma {:induction false} RunsAreOrderly(venue: Venue, b: Book, commands: seq<Command>)
    requires Orderly(venue, b) && AllLegal(venue, commands) && NoSeeding(commands)
    ensures Orderly(venue, Run(venue, b, commands))
    decreases |commands|
  {
    hide Apply, WellFormed, Quiet, Uncrossed, Minted, BookStocked;
    if commands != [] {
      ApplyStaysOrderly(venue, b, commands[0]);
      RunsAreOrderly(venue, Apply(venue, b, commands[0]), commands[1..]);
    }
  }

  lemma ApplyStaysOrderly(venue: Venue, b: Book, command: Command)
    requires Orderly(venue, b) && Legal(venue, command) && !command.SeedOrder?
    ensures Orderly(venue, Apply(venue, b, command))
  {
    match command
    case SubmitOrder(order) => SubmitIsTotal(venue, b, order);
    case Cancel(id) => CancelStaysOrderly(venue, b, id);
  }

  lemma EmptyIsOrderly(venue: Venue)
    requires venue.Valid()
    ensures Orderly(venue, EMPTY)
  {}

  /** From the empty book, whatever is submitted and cancelled: the best bid stays
      strictly below the best ask, every resting order holds something, and the
      next admitted order will not fail. */
  lemma ReachableBooksAreOrderly(venue: Venue, commands: seq<Command>, next: Order)
    requires venue.Valid() && AllLegal(venue, commands) && NoSeeding(commands) && Whole(venue, next)
    ensures Ready(venue, EMPTY)
    ensures var b := Run(venue, EMPTY, commands);
            && Orderly(venue, b)
            && (b.bids != [] && b.asks != [] ==> b.bids[0].price < b.asks[0].price)
            && (Admit(venue.spec, next).Ok? ==> Submit(venue, b, next).error.None?)
  {
    hide Submit, Run, Admit;
    EmptyIsOrderly(venue);
    RunsAreOrderly(venue, EMPTY, commands);
    SubmitIsTotal(venue, Run(venue, EMPTY, commands), next);
  }
}
