/** Where every unit goes: over one execution, and over a submission with all the
    stops it sets off. */
module Accounting {
  import opened Wrappers
  import opened Instrument
  import opened Orders
  import opened Book
  import opened SweepFacts
  import opened LevelFacts
  import opened Engine
  import opened Discipline
  import opened Stock

  function TotalDepth(b: Book): nat {
    Depth(b.bids) + Depth(b.asks)
  }

  function ParkedDepth(b: Book): nat {
    Depth(b.stopBids) + Depth(b.stopAsks)
  }

  function QuantityRested(e: Execution): int {
    if e.outcome == Rested || e.outcome == PartiallyFilledAndRested then e.order.remaining - Traded(e.trades) else 0
  }

  function QuantityDropped(e: Execution): int {
    if e.outcome == Killed then e.order.remaining - Traded(e.trades) else 0
  }

  function QuantityPending(e: Execution): int {
    if e.outcome == StopPending then e.order.remaining else 0
  }

  /** The outcome tells the truth about the quantities. */
  ghost predicate Truthful(e: Execution) {
    && Traded(e.trades) <= e.order.remaining
    && e.order.remaining == Traded(e.trades) + QuantityRested(e) + QuantityDropped(e) + QuantityPending(e)
    && match e.outcome
       case Filled => Traded(e.trades) == e.order.remaining
       case Rested => e.trades == [] && e.order.remaining > 0
       case PartiallyFilledAndRested => 0 < Traded(e.trades) < e.order.remaining
       case Killed => Traded(e.trades) < e.order.remaining
       case StopPending => e.trades == [] && e.removed == []
  }

  /** What one execution changes: resting quantity by what it rested less what it
      filled and what it cancelled of its own, parked quantity by what it parked. */
  ghost predicate Balanced(b: Book, e: Execution, after: Book) {
    && Truthful(e)
    && TotalDepth(after) + Traded(e.trades) + Quantity(e.removed) == TotalDepth(b) + QuantityRested(e)
    && ParkedDepth(after) == ParkedDepth(b) + QuantityPending(e)
  }

  // ------------------------------------------------------------ one execution

  lemma SweepOfBalances(venue: Venue, b: Book, order: Order, limit: Option<Price>)
    requires Ready(venue, b) && Whole(venue, order)
    ensures var swept := SweepOf(venue, b, order, limit);
            && swept.remaining <= order.remaining
            && Traded(swept.trades) == order.remaining - swept.remaining
            && (swept.trades == [] <==> Traded(swept.trades) == 0)
            && TotalDepth(b.WithLevels(Opposite(order.side), swept.levels))
               + Traded(swept.trades) + Quantity(swept.removed)
               == TotalDepth(b)
            && ParkedDepth(b.WithLevels(Opposite(order.side), swept.levels)) == ParkedDepth(b)
  {
    hide LiveIds, Sweep, Reach;
    var side := Opposite(order.side);
    LevelOnLots(venue.spec, side, b.nextArrival, b.Levels(side));
    SweepConserves(venue.spec, venue.policy, b.Levels(side), order, limit, b.nextArrival);
    TradesWithinLimit(venue.spec, venue.policy, b.Levels(side), order, limit, b.nextArrival);
  }

  lemma AddOrderBalances(spec: InstrumentSpec, b: Book, order: Order)
    ensures var added := AddOrder(spec, b, order);
            added.error.None? ==>
              && TotalDepth(added.book) == TotalDepth(b) + order.remaining
              && ParkedDepth(added.book) == ParkedDepth(b)
  {
    hide LiveIds, Admit, Insert;
    AddOrderCounts(spec, b, order);
    AddOrderSameStops(spec, b, order);
  }

  lemma ProcessLimitBalances(venue: Venue, b: Book, order: Order, limit: Price, tif: TimeInForce)
    requires Ready(venue, b) && Whole(venue, order) && tif != FOK
    ensures var step := ProcessLimit(venue, b, order, limit, tif);
            step.result.Ok? ==> Balanced(b, step.result.value, step.book)
  {
    hide SweepOf, AddOrder, WellFormed;
    SweepOfBalances(venue, b, order, Some(limit));
    var swept := SweepOf(venue, b, order, Some(limit));
    AddOrderBalances(venue.spec, b.WithLevels(Opposite(order.side), swept.levels),
                     order.(remaining := swept.remaining));
  }

  lemma ProcessFokBalances(venue: Venue, b: Book, order: Order, limit: Price)
    requires Solid(venue, b) && Whole(venue, order)
    ensures Balanced(b, ProcessFok(venue, b, order, limit).result.value, ProcessFok(venue, b, order, limit).book)
  {
    hide SweepOf, WellFormed, Reach;
    SweepOfBalances(venue, b, order, Some(limit));
    FokIsAllOrNothing(venue, b, order, limit);
  }

  /** A fill-or-kill order fills completely, or leaves every part of the book as
      it was: the dry run promises exactly what the sweep delivers. */
  lemma FokIsAllOrNothing(venue: Venue, b: Book, order: Order, limit: Price)
    requires Solid(venue, b) && Whole(venue, order)
    ensures var step := ProcessFok(venue, b, order, limit);
            var e := step.result.value;
            && (e.outcome == Filled <==> SweepOf(venue, b, order, Some(limit)).remaining == 0)
            && (e.outcome == Filled ==> Traded(e.trades) == order.remaining)
            && (e.outcome != Filled ==> e.outcome == Killed && e.trades == [] && e.removed == [] && step.book == b)
  {
    hide Sweep;
    var side := Opposite(order.side);
    LevelOnLots(venue.spec, side, b.nextArrival, b.Levels(side));
    DryRunAgrees(venue.spec, venue.policy, side, b.nextArrival, b.Levels(side), order, Some(limit), b.nextArrival);
    SweepConserves(venue.spec, venue.policy, b.Levels(side), order, Some(limit), b.nextArrival);
  }

  lemma ProcessMarketBalances(venue: Venue, b: Book, order: Order)
    requires Ready(venue, b) && Whole(venue, order)
    ensures Balanced(b, ProcessMarket(venue, b, order).result.value, ProcessMarket(venue, b, order).book)
  {
    hide SweepOf, WellFormed;
    SweepOfBalances(venue, b, order, None);
  }

  lemma ExecuteNowBalances(venue: Venue, b: Book, order: Order)
    requires Solid(venue, b) && Whole(venue, order) && !order.kind.IsStop()
    ensures var step := ExecuteNow(venue, b, order);
            step.result.Ok? ==>
              && step.result.value.order == order
              && step.result.value.outcome != StopPending
              && Balanced(b, step.result.value, step.book)
  {
    match order.kind
    case Limit(price, tif) =>
      if tif == FOK {
        ProcessFokBalances(venue, b, order, price);
        hide SweepOf, WellFormed, Reach, Balanced;
      } else {
        ProcessLimitBalances(venue, b, order, price, tif);
        hide SweepOf, WellFormed, AddOrder, Balanced;
      }
    case Market =>
      ProcessMarketBalances(venue, b, order);
      hide SweepOf, WellFormed, Balanced;
  }

  lemma ParkBalances(b: Book, order: Order)
    requires order.kind.IsStop()
    ensures Park(b, order).result.Ok? ==> Balanced(b, Park(b, order).result.value, Park(b, order).book)
  {
    hide LiveIds, Insert, Ids, Depth, LevelFacts.Parked;
    InsertCounts(StopsAscending(order.side), b.Stops(order.side), order.kind.trigger, order);
  }

  lemma ExecuteBalances(venue: Venue, b: Book, order: Order)
    requires Solid(venue, b) && Whole(venue, order) && Admit(venue.spec, order).Ok?
    ensures var step := Execute(venue, b, order);
            step.result.Ok? ==>
              && step.result.value.order.remaining == order.remaining
              && Balanced(b, step.result.value, step.book)
  {
    hide ExecuteNow, Balanced, Admit, WellFormed, LiveIds;
    if order.kind.IsStop() {
      ParkBalances(b, order);
      ExecuteNowBalances(venue, b, Activate(order));
    } else {
      ExecuteNowBalances(venue, b, order);
    }
  }

  // ------------------------------------------------------------ a submission

  function FilledBy(log: seq<Execution>): nat {
    if log == [] then 0 else Traded(log[0].trades) + FilledBy(log[1..])
  }

  function RemovedFrom(log: seq<Execution>): nat {
    if log == [] then 0 else Quantity(log[0].removed) + RemovedFrom(log[1..])
  }

  function RestedBy(log: seq<Execution>): int {
    if log == [] then 0 else QuantityRested(log[0]) + RestedBy(log[1..])
  }

  function Brought(log: seq<Execution>): nat {
    if log == [] then 0 else log[0].order.remaining + Brought(log[1..])
  }

  ghost function Activations(log: seq<Execution>): multiset<ExchangeId> {
    if log == [] then multiset{} else multiset{log[0].order.id} + Activations(log[1..])
  }

  lemma LogCons(e: Execution, rest: seq<Execution>)
    ensures FilledBy([e] + rest) == Traded(e.trades) + FilledBy(rest)
    ensures RemovedFrom([e] + rest) == Quantity(e.removed) + RemovedFrom(rest)
    ensures RestedBy([e] + rest) == QuantityRested(e) + RestedBy(rest)
    ensures Brought([e] + rest) == e.order.remaining + Brought(rest)
    ensures Activations([e] + rest) == multiset{e.order.id} + Activations(rest)
  {
    assert ([e] + rest)[1..] == rest;
  }

  ghost predicate AllTruthful(log: seq<Execution>) {
    forall i :: 0 <= i < |log| ==> Truthful(log[i])
  }

  lemma PopBalances(venue: Venue, b: Book)
    requires Ready(venue, b) && PopTriggered(b).Some?
    ensures var popped := PopTriggered(b).value;
            && TotalDepth(popped.book) == TotalDepth(b)
            && ParkedDepth(popped.book) + popped.order.remaining == ParkedDepth(b)
  {
    hide LiveIds, SideOk;
    HeadsHold(venue.spec, b);
    PopFrontDepth(b.Stops(PoppedSide(b)));
  }

  lemma PopStaysStocked(venue: Venue, b: Book)
    requires Solid(venue, b) && PopTriggered(b).Some?
    ensures BookStocked(PopTriggered(b).value.book)
  {
    hide SideStocked, PopFront, LiveIds, WellFormed;
  }

  lemma PopFrontDepth(levels: seq<PriceLevel>)
    requires levels != [] && levels[0].orders != []
    ensures Depth(PopFront(levels)) + levels[0].orders[0].remaining == Depth(levels)
  {
    var orders := levels[0].orders;
    assert orders == [orders[0]] + orders[1..];
    QuantityAppends([orders[0]], orders[1..]);
    Single(orders[0]);
    if |orders| > 1 {
      HeadReplaced(PriceLevel(levels[0].price, orders[1..]), levels[1..]);
    }
  }

  /** One activation moves a stop out of the stop book and accounts for all of it. */
  lemma ActivatedBalances(venue: Venue, b: Book)
    requires Solid(venue, b) && PopTriggered(b).Some? && Activated(venue, b).result.Ok?
    ensures var e := Activated(venue, b).result.value;
            var after := Activated(venue, b).book;
            && Truthful(e) && e.outcome != StopPending && !e.order.kind.IsStop()
            && TotalDepth(after) + Traded(e.trades) + Quantity(e.removed) == TotalDepth(b) + QuantityRested(e)
            && ParkedDepth(after) + e.order.remaining == ParkedDepth(b)
            && StopIds(b) == StopIds(after) + multiset{e.order.id}
  {
    hide LiveIds, WellFormed, ExecuteNow, SideStocked, TotalDepth, ParkedDepth, Truthful;
    HeadsHold(venue.spec, b);
    PopKeeps(venue, b);
    PopBalances(venue, b);
    PopStaysStocked(venue, b);
    var popped := PopTriggered(b).value;
    ExecuteNowBalances(venue, popped.book, Activate(popped.order));
    ExecuteNowKeeps(venue, popped.book, Activate(popped.order));
  }

  /** The cascade, all told: resting depth moves by exactly what was rested,
      filled and cancelled; parked quantity falls by exactly what was activated;
      and the stops that were parked split into those still parked and those
      activated, each once. */
  lemma {:induction false} CascadeBalances(venue: Venue, b: Book)
    requires Solid(venue, b) && Cascade(venue, b).error.None?
    ensures var r := Cascade(venue, b);
            && AllTruthful(r.log)
            && TotalDepth(r.book) + FilledBy(r.log) + RemovedFrom(r.log) == TotalDepth(b) + RestedBy(r.log)
            && ParkedDepth(r.book) + Brought(r.log) == ParkedDepth(b)
            && StopIds(b) == StopIds(r.book) + Activations(r.log)
            && forall i :: 0 <= i < |r.log| ==> r.log[i].outcome != StopPending && !r.log[i].order.kind.IsStop()
    decreases Pending(b)
  {
    hide LiveIds, SideOk, Activated, TotalDepth, ParkedDepth, StopIds, Truthful;
    if PopTriggered(b).Some? {
      ActivatedKeeps(venue, b);
      ActivatedStaysStocked(venue, b);
      ActivatedBalances(venue, b);
      CascadeBalances(venue, Activated(venue, b).book);
      LogCons(Activated(venue, b).result.value, Cascade(venue, Activated(venue, b).book).log);
    }
  }

  /** What a submission did to the books, told by its log: the orders' depth, the
      parked quantity, and the ids still parked. */
  ghost predicate Balances(b: Book, order: Order, r: Submission) {
    && r.log != [] && AllTruthful(r.log)
    && r.log[0].order.remaining == order.remaining
    && TotalDepth(r.book) + FilledBy(r.log) + RemovedFrom(r.log) == TotalDepth(b) + RestedBy(r.log)
    && ParkedDepth(r.book) + Brought(r.log[1..]) == ParkedDepth(b) + QuantityPending(r.log[0])
    && StopIds(r.book) + Activations(r.log[1..]) ==
       StopIds(b) + (if r.log[0].outcome == StopPending then multiset{FromSequence(b.nextSeq)} else multiset{})
    && forall i :: 0 < i < |r.log| ==> r.log[i].outcome != StopPending
  }

  /** A submission, all told. Depth accounting over the order and everything it
      triggers; whoever was parked is still parked or was activated once; and
      each execution's quantity is fully explained by its outcome. */
  lemma SubmitBalances(venue: Venue, b: Book, order: Order)
    requires Solid(venue, b) && Whole(venue, order) && Submit(venue, b, order).error.None?
    ensures Balances(b, order, Submit(venue, b, order))
  {
    hide LiveIds, WellFormed, Execute, TotalDepth, ParkedDepth, Truthful, Cascade, StopIds, Admit, SideStocked;
    var minted := order.(id := FromSequence(b.nextSeq));
    var advanced := b.(nextSeq := b.nextSeq + 1);
    SequenceAdvances(venue.spec, b);
    SequenceIsNotDepth(b);
    AdmissionIgnoresSize(venue.spec, order, order.remaining, FromSequence(b.nextSeq));
    ExecuteKeeps(venue, advanced, minted);
    ExecuteStaysStocked(venue, advanced, minted);
    ExecuteBalances(venue, advanced, minted);
    ExecuteStopIds(venue, advanced, minted);
    var step := Execute(venue, advanced, minted);
    CascadeBalances(venue, step.book);
    LogCons(step.result.value, Cascade(venue, step.book).log);
    assert Submit(venue, b, order).log[1..] == Cascade(venue, step.book).log;
  }

  lemma SequenceIsNotDepth(b: Book)
    ensures var advanced := b.(nextSeq := b.nextSeq + 1);
            && TotalDepth(advanced) == TotalDepth(b)
            && ParkedDepth(advanced) == ParkedDepth(b)
            && StopIds(advanced) == StopIds(b)
  {}

  lemma ExecuteStopIds(venue: Venue, b: Book, order: Order)
    requires Solid(venue, b) && Whole(venue, order) && Admit(venue.spec, order).Ok?
    ensures var step := Execute(venue, b, order);
            step.result.Ok? ==>
              StopIds(step.book) ==
              StopIds(b) + (if step.result.value.outcome == StopPending then multiset{order.id} else multiset{})
  {
    hide LiveIds, WellFormed, ExecuteNow, Admit, Insert;
    if order.kind.IsStop() && !Triggered(b.last, order.side, order.kind.trigger) {
      ParkCounts(b, order);
    } else {
      var now := if order.kind.IsStop() then Activate(order) else order;
      ExecuteNowKeeps(venue, b, now);
      ExecuteNowBalances(venue, b, now);
    }
  }

  // ----------------------------------------------------- who triggers whom

  /** An execution without trades moves no trigger. */
  lemma ExecuteWithoutTrades(venue: Venue, b: Book, order: Order)
    requires Ready(venue, b) && Quiet(b) && Whole(venue, order) && Admit(venue.spec, order).Ok?
    ensures var step := Execute(venue, b, order);
            step.result.Ok? && step.result.value.trades == [] ==> Quiet(step.book)
  {
    hide LiveIds, WellFormed, SweepOf, Admit, AddOrder, Insert, Reach;
    if order.kind.IsStop() && !Triggered(b.last, order.side, order.kind.trigger) {
      if b.last.Some? {
        InsertStaysBehind(StopsAscending(order.side), b.Stops(order.side), order.kind.trigger, order, b.last.value);
      }
    } else {
      var now := if order.kind.IsStop() then Activate(order) else order;
      ExecuteNowKeeps(venue, b, now);
      NoTradeNoPrint(venue, b, now);
    }
  }

  lemma NoTradeNoPrint(venue: Venue, b: Book, order: Order)
    requires Ready(venue, b) && Whole(venue, order) && !order.kind.IsStop()
    ensures var step := ExecuteNow(venue, b, order);
            step.result.Ok? && step.result.value.trades == [] ==> step.book.last == b.last
  {
    hide LiveIds, WellFormed, SweepOf, Admit, Insert, Reach;
  }

  /** A submission that prints no trade triggers nothing. */
  lemma NoTradeNoCascade(venue: Venue, b: Book, order: Order)
    requires Ready(venue, b) && Quiet(b) && Whole(venue, order)
    requires Submit(venue, b, order).log != [] && Submit(venue, b, order).log[0].trades == []
    ensures |Submit(venue, b, order).log| == 1
  {
    hide LiveIds, WellFormed, Execute, Quiet, Admit;
    var minted := order.(id := FromSequence(b.nextSeq));
    var advanced := b.(nextSeq := b.nextSeq + 1);
    SequenceAdvances(venue.spec, b);
    QuietIgnoresSequence(b);
    AdmissionIgnoresSize(venue.spec, order, order.remaining, FromSequence(b.nextSeq));
    ExecuteKeeps(venue, advanced, minted);
    ExecuteWithoutTrades(venue, advanced, minted);
    NothingToPopIsQuiet(venue, Execute(venue, advanced, minted).book);
  }

  lemma QuietIgnoresSequence(b: Book)
    requires Quiet(b)
    ensures Quiet(b.(nextSeq := b.nextSeq + 1))
  {}
}
