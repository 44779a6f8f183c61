/** Whole ticks: prices reach the engine on the instrument's tick, and the stops
    it parks keep theirs there, so whatever it later rests is on the tick too. */
module Ticking {
  import opened Instrument
  import opened Orders
  import opened Book
  import opened LevelFacts
  import opened Engine

  /** Every price the order carries is a whole number of ticks. */
  ghost predicate WholeTicks(spec: InstrumentSpec, order: Order)
    requires spec.Valid()
  {
    forall price :: price in order.kind.Prices() ==> price % spec.tickSize == 0
  }

  ghost predicate QueueOnTick(spec: InstrumentSpec, orders: seq<Order>)
    requires spec.Valid()
  {
    forall j :: 0 <= j < |orders| ==> WholeTicks(spec, orders[j])
  }

  ghost predicate SideOnTick(spec: InstrumentSpec, levels: seq<PriceLevel>)
    requires spec.Valid()
  {
    forall i :: 0 <= i < |levels| ==> QueueOnTick(spec, levels[i].orders)
  }

  ghost predicate StopsOnTick(spec: InstrumentSpec, b: Book)
    requires spec.Valid()
  {
    SideOnTick(spec, b.stopBids) && SideOnTick(spec, b.stopAsks)
  }

  ghost predicate CommandOnTick(spec: InstrumentSpec, command: Command)
    requires spec.Valid()
  {
    command.Cancel? || WholeTicks(spec, command.order)
  }

  ghost predicate AllOnTick(spec: InstrumentSpec, commands: seq<Command>)
    requires spec.Valid()
  {
    forall i :: 0 <= i < |commands| ==> CommandOnTick(spec, commands[i])
  }

  lemma ActivateOnTick(spec: InstrumentSpec, order: Order)
    requires spec.Valid() && WholeTicks(spec, order)
    ensures WholeTicks(spec, Activate(order))
  {
    assert forall price :: price in Activate(order).kind.Prices() ==> price in order.kind.Prices();
  }

  lemma SameKindOnTick(spec: InstrumentSpec, order: Order, other: Order)
    requires spec.Valid() && WholeTicks(spec, order) && other.kind == order.kind
    ensures WholeTicks(spec, other)
  {}

  lemma {:induction false} InsertOnTick(spec: InstrumentSpec, ascending: bool, levels: seq<PriceLevel>, price: Price,
                                        order: Order)
    requires spec.Valid() && SideOnTick(spec, levels) && WholeTicks(spec, order)
    ensures SideOnTick(spec, Insert(ascending, levels, price, order))
  {
    hide WholeTicks;
    if levels != [] && levels[0].price != price && !Before(ascending, price, levels[0].price) {
      InsertOnTick(spec, ascending, levels[1..], price, order);
    }
  }

  lemma {:induction false} WithoutOnTick(spec: InstrumentSpec, orders: seq<Order>, id: ExchangeId)
    requires spec.Valid() && QueueOnTick(spec, orders)
    ensures QueueOnTick(spec, Without(orders, id))
  {
    hide WholeTicks;
    if orders != [] {
      WithoutOnTick(spec, orders[..|orders| - 1], id);
    }
  }

  lemma {:induction false} UnlinkOnTick(spec: InstrumentSpec, levels: seq<PriceLevel>, id: ExchangeId)
    requires spec.Valid() && SideOnTick(spec, levels)
    ensures SideOnTick(spec, Unlink(levels, id))
  {
    hide WholeTicks;
    if levels != [] {
      UnlinkOnTick(spec, levels[1..], id);
      WithoutOnTick(spec, levels[0].orders, id);
    }
  }

  lemma PopFrontOnTick(spec: InstrumentSpec, levels: seq<PriceLevel>)
    requires spec.Valid() && SideOnTick(spec, levels) && levels != [] && levels[0].orders != []
    ensures WholeTicks(spec, levels[0].orders[0]) && SideOnTick(spec, PopFront(levels))
  {
    hide WholeTicks;
    assert QueueOnTick(spec, levels[0].orders);
    assert QueueOnTick(spec, levels[0].orders[1..]);
  }

  /** The stop that fires next is on the tick, and so are those that stay. */
  lemma PopOnTick(venue: Venue, b: Book)
    requires Ready(venue, b) && StopsOnTick(venue.spec, b) && PopTriggered(b).Some?
    ensures WholeTicks(venue.spec, PopTriggered(b).value.order)
    ensures StopsOnTick(venue.spec, PopTriggered(b).value.book)
  {
    hide WholeTicks, SideOnTick, WellFormed, PopFront;
    PopFrontOnTick(venue.spec, b.Stops(PoppedSide(b)));
  }

  lemma ActivatedOnTick(venue: Venue, b: Book)
    requires Ready(venue, b) && StopsOnTick(venue.spec, b) && PopTriggered(b).Some?
    ensures StopsOnTick(venue.spec, Activated(venue, b).book)
  {
    hide WholeTicks, SideOnTick, WellFormed, ExecuteNow, LiveIds, PopTriggered, Pending, StopIds;
    PopOnTick(venue, b);
    PopKeeps(venue, b);
    ExecuteNowKeeps(venue, PopTriggered(b).value.book, Activate(PopTriggered(b).value.order));
  }

  lemma {:induction false} CascadeOnTick(venue: Venue, b: Book)
    requires Ready(venue, b) && StopsOnTick(venue.spec, b)
    ensures StopsOnTick(venue.spec, Cascade(venue, b).book)
    decreases Pending(b)
  {
    hide LiveIds, WellFormed, Activated, StopsOnTick, PopTriggered, Pending, Cascade;
    CascadeUnfolds(venue, b);
    if PopTriggered(b).Some? {
      ActivatedOnTick(venue, b);
      if Activated(venue, b).result.Ok? {
        CascadeOnTick(venue, Activated(venue, b).book);
      }
    }
  }

  lemma ExecuteOnTick(venue: Venue, b: Book, order: Order)
    requires Ready(venue, b) && Whole(venue, order) && Admit(venue.spec, order).Ok?
    requires StopsOnTick(venue.spec, b) && WholeTicks(venue.spec, order)
    ensures StopsOnTick(venue.spec, Execute(venue, b, order).book)
  {
    hide LiveIds, WellFormed, ExecuteNow, Insert, WholeTicks, SideOnTick, Admit;
    if !order.kind.IsStop() {
      ExecuteNowKeeps(venue, b, order);
    } else if Triggered(b.last, order.side, order.kind.trigger) {
      ExecuteNowKeeps(venue, b, Activate(order));
    } else {
      InsertOnTick(venue.spec, StopsAscending(order.side), b.Stops(order.side), order.kind.trigger, order);
    }
  }

  /** A submission on the tick leaves every parked stop on the tick. */
  lemma SubmitOnTick(venue: Venue, b: Book, order: Order)
    requires Ready(venue, b) && Whole(venue, order) && StopsOnTick(venue.spec, b) && WholeTicks(venue.spec, order)
    ensures StopsOnTick(venue.spec, Submit(venue, b, order).book)
  {
    hide LiveIds, WellFormed, Execute, Submit, Cascade, Admit, SideOnTick, WholeTicks;
    SubmitUnfolds(venue, b, order);
    if Admit(venue.spec, order).Ok? {
      var advanced, minted := b.(nextSeq := b.nextSeq + 1), order.(id := FromSequence(b.nextSeq));
      SameKindOnTick(venue.spec, order, minted);
      ExecuteOnTick(venue, advanced, minted);
      var step := Execute(venue, advanced, minted);
      if step.result.Ok? {
        CascadeOnTick(venue, step.book);
      }
    }
  }

  lemma ApplyOnTick(venue: Venue, b: Book, command: Command)
    requires Ready(venue, b) && Legal(venue, command)
    requires StopsOnTick(venue.spec, b) && CommandOnTick(venue.spec, command)
    ensures StopsOnTick(venue.spec, Apply(venue, b, command))
  {
    hide LiveIds, WellFormed, SideOnTick, WholeTicks, Submit, Unlink, Insert, Admit;
    match command
    case SubmitOrder(order) => SubmitOnTick(venue, b, order);
    case SeedOrder(order) =>
    case Cancel(id) =>
      UnlinkOnTick(venue.spec, b.stopBids, id);
      UnlinkOnTick(venue.spec, b.stopAsks, id);
  }

  /** Parked stops stay on the tick over every run on the tick. */
  lemma {:induction false} RunOnTick(venue: Venue, b: Book, commands: seq<Command>)
    requires Ready(venue, b) && AllLegal(venue, commands)
    requires StopsOnTick(venue.spec, b) && AllOnTick(venue.spec, commands)
    ensures StopsOnTick(venue.spec, Run(venue, b, commands))
    decreases |commands|
  {
    hide Apply, WellFormed, StopsOnTick, CommandOnTick;
    if commands != [] {
      ApplyKeeps(venue, b, commands[0]);
      ApplyOnTick(venue, b, commands[0]);
      RunOnTick(venue, Apply(venue, b, commands[0]), commands[1..]);
    }
  }
}
