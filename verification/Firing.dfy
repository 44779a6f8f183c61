/** Which stop fires next, in plain comparisons: buy stops before sell stops, the
    nearest trigger first, and of those at one trigger the one submitted first. */
module Firing {
  import opened Wrappers
  import opened Instrument
  import opened Orders
  import opened Book
  import opened LevelFacts
  import opened Engine
  import opened Prints

  /** The stop books' lists, by side. */
  function Pendings(b: Book, side: Side): seq<PriceLevel> {
    match side
    case Bid => b.stopBids
    case Ask => b.stopAsks
  }

  ghost predicate IsParked(b: Book, s: Order) {
    Resting(Pendings(b, s.side), s)
  }

  /** A buy stop is reached when the market has risen to its trigger, a sell stop
      when it has fallen to it; nothing is reached before the first trade. */
  predicate Reached(last: Option<Price>, s: Order) {
    && last.Some? && s.kind.IsStop()
    && (s.side == Bid ==> s.kind.trigger <= last.value)
    && (s.side == Ask ==> s.kind.trigger >= last.value)
  }

  predicate GoesBefore(s: Order, t: Order)
    requires s.kind.IsStop() && t.kind.IsStop()
  {
    || (s.side == Bid && t.side == Ask)
    || (s.side == Bid && t.side == Bid && s.kind.trigger < t.kind.trigger)
    || (s.side == Ask && t.side == Ask && s.kind.trigger > t.kind.trigger)
    || (s.side == t.side && s.kind.trigger == t.kind.trigger
        && s.id.FromSequence? && t.id.FromSequence? && s.id.sequence < t.id.sequence)
  }

  ghost predicate NextInLine(b: Book, s: Order) {
    && IsParked(b, s) && Reached(b.last, s)
    && forall t :: IsParked(b, t) && Reached(b.last, t) && t != s ==> GoesBefore(s, t)
  }

  ghost predicate NobodyInLine(b: Book) {
    forall s :: IsParked(b, s) ==> !Reached(b.last, s)
  }

  /** The same book without one parked stop. */
  ghost predicate Unparked(before: Book, s: Order, after: Book) {
    && after.bids == before.bids && after.asks == before.asks && after.last == before.last
    && after.nextSeq == before.nextSeq && after.nextArrival == before.nextArrival
    && forall t :: IsParked(after, t) <==> IsParked(before, t) && t != s
  }

  // --------------------------------------------------- queues keep their turn

  /** Ids minted earlier and earlier towards the front. */
  ghost predicate InTurn(orders: seq<Order>, bound: nat) {
    && (forall j :: 0 <= j < |orders| ==> orders[j].id.FromSequence? && orders[j].id.sequence < bound)
    && (forall i, j :: 0 <= i < j < |orders| ==> orders[i].id.sequence < orders[j].id.sequence)
  }

  ghost predicate SideInTurn(stops: seq<PriceLevel>, bound: nat) {
    forall i :: 0 <= i < |stops| ==> InTurn(stops[i].orders, bound)
  }

  ghost predicate StopsInTurn(b: Book) {
    SideInTurn(b.stopBids, b.nextSeq) && SideInTurn(b.stopAsks, b.nextSeq)
  }

  lemma {:induction false} ParkInTurn(ascending: bool, stops: seq<PriceLevel>, trigger: Price, order: Order, bound: nat)
    requires SideInTurn(stops, bound) && order.id == FromSequence(bound)
    ensures SideInTurn(Insert(ascending, stops, trigger, order), bound + 1)
  {
    if stops != [] && stops[0].price != trigger && !Before(ascending, trigger, stops[0].price) {
      ParkInTurn(ascending, stops[1..], trigger, order, bound);
    }
  }

  lemma {:induction false} WithoutInTurn(orders: seq<Order>, id: ExchangeId, bound: nat)
    requires InTurn(orders, bound)
    ensures InTurn(Without(orders, id), bound)
    ensures forall o :: o in Without(orders, id) ==> o in orders
  {
    if orders != [] {
      var n := |orders| - 1;
      WithoutInTurn(orders[..n], id, bound);
      var front := Without(orders[..n], id);
      forall i | 0 <= i < |front|
        ensures front[i].id.sequence < orders[n].id.sequence
      {
        assert front[i] in orders[..n];
      }
    }
  }

  lemma {:induction false} UnlinkInTurn(stops: seq<PriceLevel>, id: ExchangeId, bound: nat)
    requires SideInTurn(stops, bound)
    ensures SideInTurn(Unlink(stops, id), bound)
  {
    hide InTurn;
    if stops != [] {
      UnlinkInTurn(stops[1..], id, bound);
      WithoutInTurn(stops[0].orders, id, bound);
    }
  }

  lemma PopInTurn(stops: seq<PriceLevel>, bound: nat)
    requires SideInTurn(stops, bound) && stops != [] && stops[0].orders != []
    ensures SideInTurn(PopFront(stops), bound)
  {
    assert InTurn(stops[0].orders, bound);
    assert InTurn(stops[0].orders[1..], bound);
  }

  // ------------------------------------------------------------ who is popped

  /** The front of the first queue is nowhere else. */
  lemma FrontIsAlone(stops: seq<PriceLevel>)
    requires stops != [] && stops[0].orders != [] && Distinct(Ids(stops))
    ensures Resting(stops, stops[0].orders[0]) && !Resting(stops[1..], stops[0].orders[0])
    ensures stops[0].orders[0] !in stops[0].orders[1..]
  {
    hide Ids, Resting, IdBag;
    var orders, s := stops[0].orders, stops[0].orders[0];
    RestsSomewhere(stops, s);
    InOrders(orders, s);
    OnlyInHead(stops, s.id);
    if Resting(stops[1..], s) {
      RestingIsListed(stops[1..], s);
    }
    HeadOnce(stops);
  }

  lemma HeadOnce(stops: seq<PriceLevel>)
    requires stops != [] && stops[0].orders != [] && Distinct(Ids(stops))
    ensures stops[0].orders[0] !in stops[0].orders[1..]
  {
    FewerIds(IdBag(stops[0].orders), Ids(stops));
    OnceFromBag(stops[0].orders);
  }

  lemma BehindTheFront(orders: seq<Order>, t: Order)
    requires orders != [] && orders[0] !in orders[1..]
    ensures t in orders[1..] <==> t in orders && t != orders[0]
  {
    assert orders == [orders[0]] + orders[1..];
  }

  lemma PopBrings(stops: seq<PriceLevel>, t: Order)
    requires stops != [] && stops[0].orders != [] && Distinct(Ids(stops))
    ensures Resting(stops, stops[0].orders[0])
    ensures Resting(PopFront(stops), t) <==> Resting(stops, t) && t != stops[0].orders[0]
  {
    hide Ids, Resting;
    var orders, after := stops[0].orders, PopFront(stops);
    FrontIsAlone(stops);
    BehindTheFront(orders, t);
    RestsSomewhere(stops, t);
    if |orders| > 1 {
      RestsSomewhere(after, t);
      assert after[1..] == stops[1..];
    }
  }

  /** A parked stop is at its own side and trigger. */
  lemma ParkedAtTrigger(spec: InstrumentSpec, side: Side, stops: seq<PriceLevel>, s: Order) returns (i: nat)
    requires spec.lotSize > 0 && StopsOk(spec, side, stops) && Resting(stops, s)
    ensures i < |stops| && s in stops[i].orders
    ensures s.side == side && s.kind.IsStop() && s.kind.trigger == stops[i].price
  {
    i :| 0 <= i < |stops| && s in stops[i].orders;
    assert StopLevelOk(spec, side, stops[i]);
  }

  /** At one trigger, the front of the queue goes before everybody else. */
  lemma FrontGoesFirst(orders: seq<Order>, bound: nat, t: Order)
    requires InTurn(orders, bound) && orders != [] && t in orders && t != orders[0]
    ensures orders[0].id.FromSequence? && t.id.FromSequence? && orders[0].id.sequence < t.id.sequence
  {}

  lemma FrontOfSide(spec: InstrumentSpec, side: Side, stops: seq<PriceLevel>, bound: nat, t: Order)
    requires spec.lotSize > 0 && StopsOk(spec, side, stops) && SideInTurn(stops, bound)
    requires stops != [] && stops[0].orders != [] && Resting(stops, t) && t != stops[0].orders[0]
    ensures Resting(stops, stops[0].orders[0])
    ensures stops[0].orders[0].side == side && stops[0].orders[0].kind.IsStop()
    ensures stops[0].orders[0].kind.trigger == stops[0].price
    ensures t.side == side && t.kind.IsStop() && GoesBefore(stops[0].orders[0], t)
  {
    assert StopLevelOk(spec, side, stops[0]);
    assert stops[0].orders[0] in stops[0].orders;
    var i := ParkedAtTrigger(spec, side, stops, t);
    if i == 0 {
      assert InTurn(stops[0].orders, bound);
      FrontGoesFirst(stops[0].orders, bound, t);
    } else {
      assert Before(StopsAscending(side), stops[0].price, stops[i].price);
    }
  }

  lemma HeadStands(spec: InstrumentSpec, b: Book, side: Side)
    requires spec.lotSize > 0 && WellFormed(spec, b) && Pendings(b, side) != []
    ensures var head := Pendings(b, side)[0];
            && head.orders != [] && IsParked(b, head.orders[0])
            && head.orders[0].side == side && head.orders[0].kind.IsStop() && head.orders[0].kind.trigger == head.price
    ensures Distinct(Ids(Pendings(b, side)))
  {
    hide Ids;
    var stops := Pendings(b, side);
    assert StopLevelOk(spec, side, stops[0]);
    assert stops[0].orders[0] in stops[0].orders;
    FewerIds(Ids(stops), LiveIds(b));
  }

  /** If the nearest stop of a side is out of reach, all of them are. */
  lemma NoneReached(spec: InstrumentSpec, b: Book, side: Side, t: Order)
    requires spec.lotSize > 0 && WellFormed(spec, b) && IsParked(b, t) && t.side == side
    requires !Fires(b, side)
    ensures !Reached(b.last, t)
  {
    hide LiveIds;
    var stops := Pendings(b, side);
    var i := ParkedAtTrigger(spec, side, stops, t);
    HeadStands(spec, b, side);
    assert i == 0 || Before(StopsAscending(side), stops[0].price, stops[i].price);
  }

  /** The engine pops exactly the stop that is next in line, and nobody else leaves. */
  lemma PopIsNextInLine(venue: Venue, b: Book)
    requires Ready(venue, b) && StopsInTurn(b) && PopTriggered(b).Some?
    ensures NextInLine(b, PopTriggered(b).value.order)
    ensures Unparked(b, PopTriggered(b).value.order, PopTriggered(b).value.book)
    ensures StopsInTurn(PopTriggered(b).value.book)
  {
    hide LiveIds, WellFormed, PopFront, SideInTurn, Resting;
    var side := if Fires(b, Bid) then Bid else Ask;
    HeadStands(venue.spec, b, side);
    var stops := Pendings(b, side);
    var s := stops[0].orders[0];
    forall t | IsParked(b, t) && Reached(b.last, t) && t != s
      ensures GoesBefore(s, t)
    {
      if t.side == side {
        StopsAreOk(venue.spec, b, side);
        FrontOfSide(venue.spec, side, stops, b.nextSeq, t);
      } else if side == Ask {
        NoneReached(venue.spec, b, Bid, t);
      }
    }
    forall t
      ensures IsParked(PopTriggered(b).value.book, t) <==> IsParked(b, t) && t != s
    {
      PopBrings(stops, t);
    }
    PopInTurn(stops, b.nextSeq);
  }

  lemma StopsAreOk(spec: InstrumentSpec, b: Book, side: Side)
    requires spec.lotSize > 0 && WellFormed(spec, b)
    ensures StopsOk(spec, side, Pendings(b, side))
  {}

  /** And pops nothing exactly when nobody is in line. */
  lemma NothingPoppedIsNobodyInLine(venue: Venue, b: Book)
    requires Ready(venue, b) && PopTriggered(b).None?
    ensures NobodyInLine(b)
  {
    hide LiveIds, WellFormed, PopFront, Resting;
    forall s | IsParked(b, s)
      ensures !Reached(b.last, s)
    {
      NoneReached(venue.spec, b, s.side, s);
    }
  }

  // -------------------------------------------------------------- over a run

  lemma ActivatedInTurn(venue: Venue, b: Book)
    requires Ready(venue, b) && StopsInTurn(b) && PopTriggered(b).Some?
    ensures StopsInTurn(Activated(venue, b).book)
  {
    hide LiveIds, WellFormed, ExecuteNow, SideInTurn, PopTriggered, NextInLine, Unparked, Pending, StopIds;
    PopIsNextInLine(venue, b);
    PopKeeps(venue, b);
    ExecuteNowKeeps(venue, PopTriggered(b).value.book, Activate(PopTriggered(b).value.order));
  }

  lemma {:induction false} CascadeInTurn(venue: Venue, b: Book)
    requires Ready(venue, b) && StopsInTurn(b)
    ensures StopsInTurn(Cascade(venue, b).book)
    decreases Pending(b)
  {
    hide LiveIds, WellFormed, Activated, StopsInTurn, PopTriggered, Pending, Cascade;
    CascadeUnfolds(venue, b);
    if PopTriggered(b).Some? {
      ActivatedInTurn(venue, b);
      if Activated(venue, b).result.Ok? {
        CascadeInTurn(venue, Activated(venue, b).book);
      }
    }
  }

  lemma SequenceInTurn(stops: seq<PriceLevel>, bound: nat)
    requires SideInTurn(stops, bound)
    ensures SideInTurn(stops, bound + 1)
  {
    forall i | 0 <= i < |stops|
      ensures InTurn(stops[i].orders, bound + 1)
    {
      assert InTurn(stops[i].orders, bound);
    }
  }

  /** Running an order that was given the next id: what it parks goes to the back. */
  lemma ExecuteInTurn(venue: Venue, b: Book, order: Order)
    requires Ready(venue, b) && Whole(venue, order) && Admit(venue.spec, order).Ok? && StopsInTurn(b)
    requires order.id == FromSequence(b.nextSeq)
    ensures Ready(venue, b.(nextSeq := b.nextSeq + 1))
    ensures StopsInTurn(Execute(venue, b.(nextSeq := b.nextSeq + 1), order).book)
  {
    hide LiveIds, WellFormed, ExecuteNow, SideInTurn, Insert, Admit;
    SequenceAdvances(venue.spec, b);
    SequenceInTurn(b.stopBids, b.nextSeq);
    SequenceInTurn(b.stopAsks, b.nextSeq);
    var advanced := b.(nextSeq := b.nextSeq + 1);
    if !order.kind.IsStop() {
      ExecuteNowKeeps(venue, advanced, order);
    } else if Triggered(b.last, order.side, order.kind.trigger) {
      ExecuteNowKeeps(venue, advanced, Activate(order));
    } else {
      ParkInTurn(StopsAscending(order.side), b.Stops(order.side), order.kind.trigger, order, b.nextSeq);
    }
  }

  lemma SubmitInTurn(venue: Venue, b: Book, order: Order)
    requires Ready(venue, b) && Whole(venue, order) && StopsInTurn(b)
    ensures StopsInTurn(Submit(venue, b, order).book)
  {
    hide LiveIds, WellFormed, Execute, Submit, Cascade, Admit, StopsInTurn;
    SubmitUnfolds(venue, b, order);
    if Admit(venue.spec, order).Ok? {
      var advanced, minted := b.(nextSeq := b.nextSeq + 1), order.(id := FromSequence(b.nextSeq));
      ExecuteInTurn(venue, b, minted);
      var step := Execute(venue, advanced, minted);
      if step.result.Ok? {
        CascadeInTurn(venue, step.book);
      }
    }
  }

  lemma ApplyInTurn(venue: Venue, b: Book, command: Command)
    requires Ready(venue, b) && Legal(venue, command) && StopsInTurn(b)
    ensures StopsInTurn(Apply(venue, b, command))
  {
    hide LiveIds, WellFormed, SideInTurn, Submit, Unlink, Insert, Admit;
    match command
    case SubmitOrder(order) => SubmitInTurn(venue, b, order);
    case SeedOrder(order) =>
    case Cancel(id) =>
      UnlinkInTurn(b.stopBids, id, b.nextSeq);
      UnlinkInTurn(b.stopAsks, id, b.nextSeq);
  }

  /** Over every run, seeds and failures included, the stops of one trigger stand in
      the order in which they were submitted. */
  lemma {:induction false} RunsKeepTurns(venue: Venue, b: Book, commands: seq<Command>)
    requires Ready(venue, b) && AllLegal(venue, commands) && StopsInTurn(b)
    ensures StopsInTurn(Run(venue, b, commands))
    decreases |commands|
  {
    hide Apply, WellFormed, StopsInTurn;
    if commands != [] {
      ApplyKeeps(venue, b, commands[0]);
      ApplyInTurn(venue, b, commands[0]);
      RunsKeepTurns(venue, Apply(venue, b, commands[0]), commands[1..]);
    }
  }
}
