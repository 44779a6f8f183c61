/** Whether resting orders hold anything: matching never leaves a hollow order
    behind, so only a hollow seed can bring one in. */
module Stock {
  import opened Wrappers
  import opened Instrument
  import opened Orders
  import opened Book
  import opened SweepFacts
  import opened LevelFacts
  import opened Engine

  /** A book the engine can work on in which every resting order holds something. */
  ghost predicate Solid(venue: Venue, b: Book) {
    Ready(venue, b) && BookStocked(b)
  }

  lemma {:induction false} InsertStocked(ascending: bool, levels: seq<PriceLevel>, price: Price, order: Order)
    requires SideStocked(levels)
    ensures SideStocked(Insert(ascending, levels, price, order)) <==> order.remaining > 0
  {
    var after := Insert(ascending, levels, price, order);
    if levels == [] || levels[0].price == price || Before(ascending, price, levels[0].price) {
      var orders := after[0].orders;
      assert orders[|orders| - 1] == order;
      assert Stocked(orders) ==> order.remaining > 0;
    } else {
      InsertStocked(ascending, levels[1..], price, order);
      var rest := Insert(ascending, levels[1..], price, order);
      assert forall i :: 0 <= i < |rest| ==> after[i + 1] == rest[i];
      assert SideStocked(after) ==> SideStocked(rest);
    }
  }

  lemma {:induction false} WithoutStocked(orders: seq<Order>, id: ExchangeId)
    requires Stocked(orders)
    ensures Stocked(Without(orders, id))
  {
    if orders != [] {
      WithoutStocked(orders[..|orders| - 1], id);
    }
  }

  lemma {:induction false} UnlinkStocked(levels: seq<PriceLevel>, id: ExchangeId)
    requires SideStocked(levels)
    ensures SideStocked(Unlink(levels, id))
  {
    if levels != [] {
      UnlinkStocked(levels[1..], id);
      WithoutStocked(levels[0].orders, id);
    }
  }

  lemma SweptBookStocked(venue: Venue, b: Book, order: Order, limit: Option<Price>)
    requires Solid(venue, b) && Whole(venue, order)
    ensures BookStocked(b.WithLevels(Opposite(order.side), SweepOf(venue, b, order, limit).levels))
  {
    hide LiveIds, Sweep;
    var side := Opposite(order.side);
    LevelOnLots(venue.spec, side, b.nextArrival, b.Levels(side));
    SweepStocked(venue.spec, venue.policy, b.Levels(side), order, limit, b.nextArrival);
  }

  /** Adding keeps a stocked book stocked exactly when the order holds something. */
  lemma AddStocked(spec: InstrumentSpec, b: Book, order: Order)
    requires BookStocked(b)
    ensures BookStocked(AddOrder(spec, b, order).book) <==> AddOrder(spec, b, order).error.Some? || order.remaining > 0
  {
    hide LiveIds, Admit, Insert, SideStocked;
    if AddOrder(spec, b, order).error.None? {
      InsertStocked(RestsAscending(order.side), b.Levels(order.side), order.kind.price,
                    order.(arrival := b.nextArrival));
    }
  }

  /** Whatever an execution rests still holds something, and so does whatever it
      leaves of others. */
  lemma ExecuteNowStaysStocked(venue: Venue, b: Book, order: Order)
    requires Solid(venue, b) && Whole(venue, order) && !order.kind.IsStop()
    ensures BookStocked(ExecuteNow(venue, b, order).book)
  {
    hide LiveIds, WellFormed, SweepOf, AddOrder, Reach, SideStocked;
    var limit := if order.kind.Market? then None else Some(order.kind.price);
    SweptBookStocked(venue, b, order, limit);
    var swept := SweepOf(venue, b, order, limit);
    AddStocked(venue.spec, b.WithLevels(Opposite(order.side), swept.levels), order.(remaining := swept.remaining));
  }

  lemma ActivatedStaysStocked(venue: Venue, b: Book)
    requires Solid(venue, b) && PopTriggered(b).Some?
    ensures BookStocked(Activated(venue, b).book)
  {
    hide LiveIds, WellFormed, ExecuteNow, PopFront, Pending, StopIds;
    PopKeeps(venue, b);
    ExecuteNowStaysStocked(venue, PopTriggered(b).value.book, Activate(PopTriggered(b).value.order));
  }

  lemma {:induction false} CascadeStaysStocked(venue: Venue, b: Book)
    requires Solid(venue, b)
    ensures BookStocked(Cascade(venue, b).book)
    decreases Pending(b)
  {
    hide LiveIds, WellFormed, Activated, BookStocked, PopTriggered, Pending, Cascade;
    CascadeUnfolds(venue, b);
    if PopTriggered(b).Some? {
      ActivatedStaysStocked(venue, b);
      if Activated(venue, b).result.Ok? {
        CascadeStaysStocked(venue, Activated(venue, b).book);
      }
    }
  }

  lemma ExecuteStaysStocked(venue: Venue, b: Book, order: Order)
    requires Solid(venue, b) && Whole(venue, order) && Admit(venue.spec, order).Ok?
    ensures BookStocked(Execute(venue, b, order).book)
  {
    hide LiveIds, WellFormed, ExecuteNow, Insert, SideStocked, Admit;
    if !order.kind.IsStop() {
      ExecuteNowStaysStocked(venue, b, order);
    } else if Triggered(b.last, order.side, order.kind.trigger) {
      ExecuteNowStaysStocked(venue, b, Activate(order));
    }
  }

  lemma SubmitStaysStocked(venue: Venue, b: Book, order: Order)
    requires Solid(venue, b) && Whole(venue, order)
    ensures BookStocked(Submit(venue, b, order).book)
  {
    hide LiveIds, WellFormed, Execute, Submit, Cascade, Admit, SideStocked;
    SubmitUnfolds(venue, b, order);
    if Admit(venue.spec, order).Ok? {
      var advanced, minted := b.(nextSeq := b.nextSeq + 1), order.(id := FromSequence(b.nextSeq));
      ExecuteStaysStocked(venue, advanced, minted);
      var step := Execute(venue, advanced, minted);
      if step.result.Ok? {
        CascadeStaysStocked(venue, step.book);
      }
    }
  }

  lemma CancelStaysStocked(b: Book, id: ExchangeId)
    requires BookStocked(b)
    ensures BookStocked(CancelOrder(b, id).book)
  {
    hide LiveIds, SideStocked, Unlink;
    UnlinkStocked(b.bids, id);
    UnlinkStocked(b.asks, id);
  }

  /** No command seeds a hollow order. */
  ghost predicate SeedsStock(commands: seq<Command>) {
    forall i :: 0 <= i < |commands| && commands[i].SeedOrder? ==> commands[i].order.remaining > 0
  }

  lemma ApplyStaysStocked(venue: Venue, b: Book, command: Command)
    requires Solid(venue, b) && Legal(venue, command) && (command.SeedOrder? ==> command.order.remaining > 0)
    ensures BookStocked(Apply(venue, b, command))
  {
    hide BookStocked, Submit, AddOrder, CancelOrder;
    match command
    case SubmitOrder(order) => SubmitStaysStocked(venue, b, order);
    case SeedOrder(order) => AddStocked(venue.spec, b, order);
    case Cancel(id) => CancelStaysStocked(b, id);
  }

  /** Positive remainders in every book a run reaches, unless it seeds a hollow one. */
  lemma {:induction false} RunsStayStocked(venue: Venue, b: Book, commands: seq<Command>)
    requires Solid(venue, b) && AllLegal(venue, commands) && SeedsStock(commands)
    ensures BookStocked(Run(venue, b, commands))
    decreases |commands|
  {
    hide Apply, WellFormed, BookStocked;
    if commands != [] {
      ApplyKeeps(venue, b, commands[0]);
      ApplyStaysStocked(venue, b, commands[0]);
      RunsStayStocked(venue, Apply(venue, b, commands[0]), commands[1..]);
    }
  }
}
