/** The allocation policy decides who fills, never how much: two books fed the
    same orders under any two conforming policies stay alike in everything but
    the identity of the makers. */
module Independence {
  import opened Sums
  import opened Wrappers
  import opened Instrument
  import opened Allocation
  import opened Orders
  import opened Book
  import opened SweepFacts
  import opened LevelFacts
  import opened Engine
  import opened Stock
  import opened Discipline

  /** Same prices, same quantity at each. */
  ghost predicate SameLadder(a: seq<PriceLevel>, b: seq<PriceLevel>) {
    && |a| == |b|
    && forall i :: 0 <= i < |a| ==> a[i].price == b[i].price && Quantity(a[i].orders) == Quantity(b[i].orders)
  }

  /** The books agree on the depth of every level, the stop books, the last trade
      price and both counters. */
  ghost predicate Alike(a: Book, b: Book) {
    && SameLadder(a.bids, b.bids) && SameLadder(a.asks, b.asks)
    && a.stopBids == b.stopBids && a.stopAsks == b.stopAsks
    && a.last == b.last && a.nextSeq == b.nextSeq && a.nextArrival == b.nextArrival
  }

  /** What printed at one price. */
  function Volume(trades: seq<Trade>, price: Price): nat {
    if trades == [] then 0
    else
      Volume(trades[..|trades| - 1], price) +
      (if trades[|trades| - 1].price == price then trades[|trades| - 1].quantity else 0)
  }

  function LastPrice(trades: seq<Trade>): Option<Price> {
    if trades == [] then None else Some(trades[|trades| - 1].price)
  }

  ghost predicate SameTape(a: seq<Trade>, b: seq<Trade>) {
    LastPrice(a) == LastPrice(b) && forall price :: Volume(a, price) == Volume(b, price)
  }

  ghost predicate AlikeExecution(d: Execution, e: Execution) {
    && d.order == e.order && d.outcome == e.outcome
    && d.removed == [] && e.removed == []
    && SameTape(d.trades, e.trades)
  }

  ghost predicate AlikeLogs(a: seq<Execution>, b: seq<Execution>) {
    |a| == |b| && forall i :: 0 <= i < |a| ==> AlikeExecution(a[i], b[i])
  }

  // ------------------------------------------------------------------ strangers

  ghost predicate Strangers(levels: seq<PriceLevel>, client: ClientId) {
    forall i :: 0 <= i < |levels| ==> StrangersAt(levels[i].orders, client)
  }

  ghost predicate StrangersAt(orders: seq<Order>, client: ClientId) {
    forall j :: 0 <= j < |orders| ==> orders[j].client != client
  }

  lemma {:induction false} StrangersAreForeign(orders: seq<Order>, client: ClientId)
    requires StrangersAt(orders, client)
    ensures Foreign(orders, client) == orders && Own(orders, client) == []
  {
    if orders != [] {
      StrangersAreForeign(orders[..|orders| - 1], client);
    }
  }

  lemma {:induction false} VolumeAppends(a: seq<Trade>, b: seq<Trade>, price: Price)
    ensures Volume(a + b, price) == Volume(a, price) + Volume(b, price)
  {
    if b == [] {
      assert a + b == a;
    } else {
      assert (a + b)[..|a + b| - 1] == a + b[..|b| - 1];
      VolumeAppends(a, b[..|b| - 1], price);
    }
  }

  lemma {:induction false} VolumeAtOnePrice(trades: seq<Trade>, at: Price, price: Price)
    requires forall k :: 0 <= k < |trades| ==> trades[k].price == at
    ensures Volume(trades, price) == if price == at then Traded(trades) else 0
  {
    if trades != [] {
      VolumeAtOnePrice(trades[..|trades| - 1], at, price);
    }
  }

  lemma TapesAppend(a: seq<Trade>, b: seq<Trade>, c: seq<Trade>, d: seq<Trade>)
    requires SameTape(a, b) && SameTape(c, d)
    ensures SameTape(a + c, b + d)
  {
    forall price
      ensures Volume(a + c, price) == Volume(b + d, price)
    {
      VolumeAppends(a, c, price);
      VolumeAppends(b, d, price);
    }
  }

  // ---------------------------------------------------------------- the sweep

  /** What a level gives a stranger depends on its depth alone. */
  lemma LevelGives(spec: InstrumentSpec, policy: Policy, side: Side, bound: nat, level: PriceLevel, taker: Order,
                   now: nat)
    requires spec.lotSize > 0 && Conforming(policy, spec.lotSize) && taker.remaining % spec.lotSize == 0
    requires LevelOk(spec, side, bound, level) && Stocked(level.orders) && StrangersAt(level.orders, taker.client)
    ensures var r := SweepLevel(policy, spec.lotSize, level, taker, now);
            var filled := Min(taker.remaining, Quantity(level.orders));
            && r.remaining == taker.remaining - filled && r.removed == []
            && Quantity(r.orders) == Quantity(level.orders) - filled
            && (r.orders == [] <==> Quantity(level.orders) <= taker.remaining)
            && LastPrice(r.trades) == (if filled == 0 then None else Some(level.price))
            && (forall price :: Volume(r.trades, price) == if price == level.price then filled else 0)
  {
    StrangersAreForeign(level.orders, taker.client);
    LevelSweptQuantities(spec, policy, level, taker, now);
    LevelDrains(spec, policy, side, bound, level, taker, now);
    LevelSweptTrades(spec, policy, level, taker, now);
    var r := SweepLevel(policy, spec.lotSize, level, taker, now);
    forall price
      ensures Volume(r.trades, price) == if price == level.price then taker.remaining - r.remaining else 0
    {
      VolumeAtOnePrice(r.trades, level.price, price);
    }
  }

  lemma {:induction false} SweepsAgree(spec: InstrumentSpec, p: Policy, q: Policy, side: Side, bound: nat,
                                       a: seq<PriceLevel>, b: seq<PriceLevel>, taker: Order, limit: Option<Price>,
                                       now: nat)
    requires spec.lotSize > 0 && Conforming(p, spec.lotSize) && Conforming(q, spec.lotSize)
    requires taker.remaining % spec.lotSize == 0
    requires SideOk(spec, side, bound, a) && SideOk(spec, side, bound, b) && SameLadder(a, b)
    requires LevelsOnLots(a, spec.lotSize) && LevelsOnLots(b, spec.lotSize)
    requires Strangers(a, taker.client) && Strangers(b, taker.client) && SideStocked(a) && SideStocked(b)
    ensures var r, t := Sweep(p, spec.lotSize, a, taker, limit, now), Sweep(q, spec.lotSize, b, taker, limit, now);
            && r.remaining == t.remaining && r.removed == [] && t.removed == []
            && SameLadder(r.levels, t.levels) && SameTape(r.trades, t.trades)
    decreases |a|
  {
    hide SweepLevel, Volume, LastPrice, Quantity, Conforming, LevelOk, StrangersAt;
    if taker.remaining > 0 && a != [] && Crosses(taker.side, a[0].price, limit) {
      LevelGives(spec, p, side, bound, a[0], taker, now);
      LevelGives(spec, q, side, bound, b[0], taker, now);
      var r, t := SweepLevel(p, spec.lotSize, a[0], taker, now), SweepLevel(q, spec.lotSize, b[0], taker, now);
      SweptOnLots(p, spec.lotSize, a[0], taker, now);
      if r.orders == [] {
        SideTail(spec, side, bound, a);
        SideTail(spec, side, bound, b);
        var rest := taker.(remaining := r.remaining);
        SweepsAgree(spec, p, q, side, bound, a[1..], b[1..], rest, limit, now);
        TapesAppend(r.trades, t.trades, Sweep(p, spec.lotSize, a[1..], rest, limit, now).trades,
                    Sweep(q, spec.lotSize, b[1..], rest, limit, now).trades);
      }
    }
  }

  lemma {:induction false} InsertsAgree(ascending: bool, a: seq<PriceLevel>, b: seq<PriceLevel>, price: Price,
                                        order: Order)
    requires SameLadder(a, b)
    ensures SameLadder(Insert(ascending, a, price, order), Insert(ascending, b, price, order))
  {
    if a != [] {
      if a[0].price == price {
        QuantityAppends(a[0].orders, [order]);
        QuantityAppends(b[0].orders, [order]);
      } else if !Before(ascending, price, a[0].price) {
        InsertsAgree(ascending, a[1..], b[1..], price, order);
        LaddersCons(a[0], b[0], Insert(ascending, a[1..], price, order), Insert(ascending, b[1..], price, order));
      }
    }
  }

  lemma LaddersCons(x: PriceLevel, y: PriceLevel, a: seq<PriceLevel>, b: seq<PriceLevel>)
    requires x.price == y.price && Quantity(x.orders) == Quantity(y.orders) && SameLadder(a, b)
    ensures SameLadder([x] + a, [y] + b)
  {}

  lemma {:induction false} ReachesAgree(a: seq<PriceLevel>, b: seq<PriceLevel>, taker: Order, limit: Option<Price>)
    requires SameLadder(a, b) && Strangers(a, taker.client) && Strangers(b, taker.client)
    ensures Reach(a, taker, limit) == Reach(b, taker, limit)
  {
    if a != [] {
      StrangersAreForeign(a[0].orders, taker.client);
      StrangersAreForeign(b[0].orders, taker.client);
      ReachesAgree(a[1..], b[1..], taker, limit);
    }
  }

  // ------------------------------------------------------------ one execution

  ghost predicate SameRules(v: Venue, w: Venue) {
    v.Valid() && w.Valid() && v.spec == w.spec
  }

  ghost predicate StrangersIn(b: Book, client: ClientId) {
    Strangers(b.bids, client) && Strangers(b.asks, client)
  }

  lemma SweepsOfAgree(v: Venue, w: Venue, a: Book, b: Book, order: Order, limit: Option<Price>)
    requires SameRules(v, w) && Solid(v, a) && Solid(w, b) && Alike(a, b) && Whole(v, order)
    requires StrangersIn(a, order.client) && StrangersIn(b, order.client)
    ensures var r, t := SweepOf(v, a, order, limit), SweepOf(w, b, order, limit);
            && r.remaining == t.remaining && r.removed == [] && t.removed == []
            && Alike(a.WithLevels(Opposite(order.side), r.levels), b.WithLevels(Opposite(order.side), t.levels))
            && SameTape(r.trades, t.trades)
  {
    hide Strangers, SameTape, LiveIds, Sweep, LevelsOk;
    var side := Opposite(order.side);
    LevelOnLots(v.spec, side, a.nextArrival, a.Levels(side));
    LevelOnLots(w.spec, side, b.nextArrival, b.Levels(side));
    SweepsAgree(v.spec, v.policy, w.policy, side, a.nextArrival, a.Levels(side), b.Levels(side), order, limit,
                a.nextArrival);
  }

  lemma AddsAgree(spec: InstrumentSpec, a: Book, b: Book, order: Order)
    requires Alike(a, b)
    requires AddOrder(spec, a, order).error.None? && AddOrder(spec, b, order).error.None?
    ensures Alike(AddOrder(spec, a, order).book, AddOrder(spec, b, order).book)
  {
    hide SameLadder, LiveIds, Admit, Insert;
    InsertsAgree(RestsAscending(order.side), a.Levels(order.side), b.Levels(order.side), order.kind.price,
                 order.(arrival := a.nextArrival));
  }

  lemma PrintsAgree(a: Book, b: Book, order: Order, r: SweepResult, t: SweepResult, outcome: Outcome)
    requires Alike(a, b) && SameTape(r.trades, t.trades) && r.removed == [] && t.removed == []
    ensures Alike(Printed(a, order, r, outcome).book, Printed(b, order, t, outcome).book)
    ensures AlikeExecution(Printed(a, order, r, outcome).result.value, Printed(b, order, t, outcome).result.value)
  {
    hide SameLadder, Volume;
  }

  lemma LimitsAgree(v: Venue, w: Venue, a: Book, b: Book, order: Order, limit: Price, tif: TimeInForce)
    requires SameRules(v, w) && Solid(v, a) && Solid(w, b) && Alike(a, b) && Whole(v, order) && tif != FOK
    requires StrangersIn(a, order.client) && StrangersIn(b, order.client)
    requires ProcessLimit(v, a, order, limit, tif).result.Ok? && ProcessLimit(w, b, order, limit, tif).result.Ok?
    ensures var d, e := ProcessLimit(v, a, order, limit, tif), ProcessLimit(w, b, order, limit, tif);
            Alike(d.book, e.book) && AlikeExecution(d.result.value, e.result.value)
  {
    hide Alike, AlikeExecution, SweepOf, AddOrder, WellFormed, Printed, StrangersIn;
    SweepsOfAgree(v, w, a, b, order, Some(limit));
    var r, t := SweepOf(v, a, order, Some(limit)), SweepOf(w, b, order, Some(limit));
    var c, d := a.WithLevels(Opposite(order.side), r.levels), b.WithLevels(Opposite(order.side), t.levels);
    if r.remaining == 0 {
      PrintsAgree(c, d, order, r, t, Filled);
    } else if tif == IOC {
      PrintsAgree(c, d, order, r, t, Killed);
    } else {
      var left := order.(remaining := r.remaining);
      AddsAgree(v.spec, c, d, left);
      PrintsAgree(AddOrder(v.spec, c, left).book, AddOrder(w.spec, d, left).book, order, r, t,
                  if r.trades == [] then Rested else PartiallyFilledAndRested);
    }
  }

  lemma ExecutionsAgree(v: Venue, w: Venue, a: Book, b: Book, order: Order)
    requires SameRules(v, w) && Solid(v, a) && Solid(w, b) && Alike(a, b) && Whole(v, order) && !order.kind.IsStop()
    requires StrangersIn(a, order.client) && StrangersIn(b, order.client)
    requires ExecuteNow(v, a, order).result.Ok? && ExecuteNow(w, b, order).result.Ok?
    ensures var d, e := ExecuteNow(v, a, order), ExecuteNow(w, b, order);
            Alike(d.book, e.book) && AlikeExecution(d.result.value, e.result.value)
  {
    match order.kind
    case Limit(price, tif) =>
      if tif == FOK {
        hide SweepOf, WellFormed, Printed, AlikeExecution, Strangers, SameLadder;
        SweepsOfAgree(v, w, a, b, order, Some(price));
        ReachesAgree(a.Levels(Opposite(order.side)), b.Levels(Opposite(order.side)), order, Some(price));
        var r, t := SweepOf(v, a, order, Some(price)), SweepOf(w, b, order, Some(price));
        PrintsAgree(a.WithLevels(Opposite(order.side), r.levels), b.WithLevels(Opposite(order.side), t.levels),
                    order, r, t, Filled);
        NothingHappenedAlike(order);
      } else {
        LimitsAgree(v, w, a, b, order, price, tif);
        hide Alike, AlikeExecution, ProcessLimit, WellFormed;
      }
    case Market =>
      hide SweepOf, WellFormed, Printed, AlikeExecution, Alike, StrangersIn;
      SweepsOfAgree(v, w, a, b, order, None);
      var r, t := SweepOf(v, a, order, None), SweepOf(w, b, order, None);
      PrintsAgree(a.WithLevels(Opposite(order.side), r.levels), b.WithLevels(Opposite(order.side), t.levels),
                  order, r, t, if r.remaining == 0 then Filled else Killed);
  }

  lemma NothingHappenedAlike(order: Order)
    ensures AlikeExecution(Execution(order, [], Killed, []), Execution(order, [], Killed, []))
    ensures AlikeExecution(Execution(order, [], StopPending, []), Execution(order, [], StopPending, []))
  {}

  // ------------------------------------------------------ who owns which order

  /** Which client submitted the order minted under each sequence number. */
  type Owners = map<nat, ClientId>

  ghost predicate OneEach(owners: Owners) {
    forall m, n :: m in owners && n in owners && m != n ==> owners[m] != owners[n]
  }

  ghost predicate OwnedBy(orders: seq<Order>, owners: Owners) {
    forall j :: 0 <= j < |orders| ==>
      && orders[j].id.FromSequence? && orders[j].id.sequence in owners
      && orders[j].client == owners[orders[j].id.sequence]
  }

  ghost predicate LevelsOwned(levels: seq<PriceLevel>, owners: Owners) {
    forall i :: 0 <= i < |levels| ==> OwnedBy(levels[i].orders, owners)
  }

  ghost predicate Owned(b: Book, owners: Owners) {
    && LevelsOwned(b.bids, owners) && LevelsOwned(b.asks, owners)
    && LevelsOwned(b.stopBids, owners) && LevelsOwned(b.stopAsks, owners)
  }

  /** An order that is not alive meets only other clients' orders. */
  lemma OwnersAreStrangers(levels: seq<PriceLevel>, owners: Owners, n: nat)
    requires LevelsOwned(levels, owners) && OneEach(owners) && n in owners
    requires FromSequence(n) !in Ids(levels)
    ensures Strangers(levels, owners[n])
  {
    forall i, j | 0 <= i < |levels| && 0 <= j < |levels[i].orders|
      ensures levels[i].orders[j].client != owners[n]
    {
      IdIsListed(levels, i, j);
      assert OwnedBy(levels[i].orders, owners);
    }
  }

  lemma {:induction false} ForeignOwned(orders: seq<Order>, client: ClientId, owners: Owners)
    requires OwnedBy(orders, owners)
    ensures OwnedBy(Foreign(orders, client), owners)
  {
    if orders != [] {
      ForeignOwned(orders[..|orders| - 1], client, owners);
    }
  }

  lemma {:induction false} SettleOwned(orders: seq<Order>, shares: seq<nat>, owners: Owners)
    requires |shares| == |orders| && OwnedBy(orders, owners)
    requires forall i :: 0 <= i < |orders| ==> shares[i] <= orders[i].remaining
    ensures OwnedBy(Settle(orders, shares), owners)
  {
    if orders != [] {
      SettleOwned(orders[..|orders| - 1], shares[..|orders| - 1], owners);
    }
  }

  lemma LevelSweptOwned(spec: InstrumentSpec, policy: Policy, level: PriceLevel, taker: Order, now: nat, owners: Owners)
    requires spec.lotSize > 0 && Conforming(policy, spec.lotSize) && taker.remaining % spec.lotSize == 0
    requires OnLots(level.orders, spec.lotSize) && OwnedBy(level.orders, owners)
    ensures OwnedBy(SweepLevel(policy, spec.lotSize, level, taker, now).orders, owners)
  {
    var foreign := Foreign(level.orders, taker.client);
    ForeignOnLots(level.orders, taker.client, spec.lotSize);
    PolicyApplied(policy, spec.lotSize, taker.remaining, foreign, now);
    ForeignOwned(level.orders, taker.client, owners);
    SettleOwned(foreign, Shares(policy(taker.remaining, MakersOf(foreign), now), |foreign|), owners);
  }

  lemma {:induction false} SweepOwned(spec: InstrumentSpec, policy: Policy, levels: seq<PriceLevel>, taker: Order,
                                      limit: Option<Price>, now: nat, owners: Owners)
    requires spec.lotSize > 0 && Conforming(policy, spec.lotSize) && taker.remaining % spec.lotSize == 0
    requires LevelsOnLots(levels, spec.lotSize) && LevelsOwned(levels, owners)
    ensures LevelsOwned(Sweep(policy, spec.lotSize, levels, taker, limit, now).levels, owners)
    decreases |levels|
  {
    hide SweepLevel, OwnedBy, Conforming;
    if taker.remaining > 0 && levels != [] && Crosses(taker.side, levels[0].price, limit) {
      LevelSweptOwned(spec, policy, levels[0], taker, now, owners);
      SweptOnLots(policy, spec.lotSize, levels[0], taker, now);
      var swept := SweepLevel(policy, spec.lotSize, levels[0], taker, now);
      if swept.orders == [] {
        SweepOwned(spec, policy, levels[1..], taker.(remaining := swept.remaining), limit, now, owners);
      }
    }
  }

  lemma {:induction false} InsertOwned(ascending: bool, levels: seq<PriceLevel>, price: Price, order: Order,
                                       owners: Owners)
    requires LevelsOwned(levels, owners) && OwnedBy([order], owners)
    ensures LevelsOwned(Insert(ascending, levels, price, order), owners)
  {
    assert [order][0] == order;
    if levels != [] && levels[0].price != price && !Before(ascending, price, levels[0].price) {
      InsertOwned(ascending, levels[1..], price, order, owners);
      var rest := Insert(ascending, levels[1..], price, order);
      OwnedCons(levels[0], rest, owners);
    }
  }

  lemma OwnedCons(level: PriceLevel, rest: seq<PriceLevel>, owners: Owners)
    requires OwnedBy(level.orders, owners) && LevelsOwned(rest, owners)
    ensures LevelsOwned([level] + rest, owners)
  {}

  lemma SweptBookOwned(venue: Venue, b: Book, order: Order, limit: Option<Price>, owners: Owners)
    requires Ready(venue, b) && Whole(venue, order) && Owned(b, owners)
    ensures Owned(b.WithLevels(Opposite(order.side), SweepOf(venue, b, order, limit).levels), owners)
  {
    hide LevelsOwned, LiveIds, Sweep, SideOk;
    var side := Opposite(order.side);
    LevelOnLots(venue.spec, side, b.nextArrival, b.Levels(side));
    SweepOwned(venue.spec, venue.policy, b.Levels(side), order, limit, b.nextArrival, owners);
  }

  lemma AddedOwned(spec: InstrumentSpec, b: Book, order: Order, owners: Owners)
    requires Owned(b, owners) && OwnedBy([order], owners)
    ensures Owned(AddOrder(spec, b, order).book, owners)
  {
    hide LevelsOwned, LiveIds, Admit, Insert;
    if order.kind.Limit? {
      var stamped := order.(arrival := b.nextArrival);
      assert [order][0] == order && [stamped][0] == stamped;
      InsertOwned(RestsAscending(order.side), b.Levels(order.side), order.kind.price, stamped, owners);
    }
  }

  lemma ExecuteNowOwned(venue: Venue, b: Book, order: Order, owners: Owners)
    requires Ready(venue, b) && Whole(venue, order) && !order.kind.IsStop()
    requires Owned(b, owners) && OwnedBy([order], owners)
    ensures Owned(ExecuteNow(venue, b, order).book, owners)
  {
    hide LevelsOwned, LiveIds, SweepOf, WellFormed, AddOrder, Reach;
    var limit := match order.kind case Limit(price, _) => Some(price) case _ => None;
    SweptBookOwned(venue, b, order, limit, owners);
    var swept := SweepOf(venue, b, order, limit);
    var left := order.(remaining := swept.remaining);
    assert [order][0] == order && [left][0] == left;
    AddedOwned(venue.spec, b.WithLevels(Opposite(order.side), swept.levels), left, owners);
  }

  // -------------------------------------------------------------- the cascade

  ghost predicate Traceable(venue: Venue, b: Book, owners: Owners) {
    Sound(venue, b) && Owned(b, owners)
  }

  lemma PopFrontOwned(levels: seq<PriceLevel>, owners: Owners)
    requires levels != [] && levels[0].orders != [] && LevelsOwned(levels, owners)
    ensures LevelsOwned(PopFront(levels), owners)
    ensures OwnedBy([levels[0].orders[0]], owners)
  {
    assert OwnedBy(levels[0].orders, owners);
    if |levels[0].orders| > 1 {
      assert OwnedBy(levels[0].orders[1..], owners);
      OwnedCons(PriceLevel(levels[0].price, levels[0].orders[1..]), levels[1..], owners);
    }
  }

  lemma PopOwned(venue: Venue, b: Book, owners: Owners)
    requires Ready(venue, b) && Owned(b, owners) && PopTriggered(b).Some?
    ensures Owned(PopTriggered(b).value.book, owners)
    ensures OwnedBy([Activate(PopTriggered(b).value.order)], owners)
  {
    hide LevelsOwned, LiveIds, SideOk;
    HeadsHold(venue.spec, b);
    PopFrontOwned(b.Stops(PoppedSide(b)), owners);
    var order := PopTriggered(b).value.order;
    assert [order][0] == order && [Activate(order)][0] == Activate(order);
  }

  lemma NotAliveMeansStrangers(venue: Venue, b: Book, owners: Owners, order: Order)
    requires Ready(venue, b) && Owned(b, owners) && OneEach(owners) && OwnedBy([order], owners)
    requires order.id !in LiveIds(b)
    ensures StrangersIn(b, order.client)
  {
    hide WellFormed, LevelsOwned, Ids;
    assert [order][0] == order;
    assert order.id !in Ids(b.bids) && order.id !in Ids(b.asks);
    OwnersAreStrangers(b.bids, owners, order.id.sequence);
    OwnersAreStrangers(b.asks, owners, order.id.sequence);
  }

  /** Two alike books run the same order alike, whatever their policies. */
  lemma RunAlike(v: Venue, w: Venue, a: Book, b: Book, order: Order, owners: Owners)
    requires SameRules(v, w) && Traceable(v, a, owners) && Traceable(w, b, owners) && OneEach(owners) && Alike(a, b)
    requires Whole(v, order) && !order.kind.IsStop() && Admit(v.spec, order).Ok? && OwnedBy([order], owners)
    requires order.id !in LiveIds(a) && order.id !in LiveIds(b)
    requires order.id.FromSequence? && order.id.sequence < a.nextSeq
    ensures var d, e := ExecuteNow(v, a, order), ExecuteNow(w, b, order);
            && d.result.Ok? && e.result.Ok?
            && Alike(d.book, e.book) && AlikeExecution(d.result.value, e.result.value)
            && Traceable(v, d.book, owners) && Traceable(w, e.book, owners)
  {
    hide LiveIds, WellFormed, ExecuteNow, Uncrossed, Minted, Owned, OwnedBy, AlikeExecution, StrangersIn, SameLadder;
    ExecuteNowStaysSound(v, a, order);
    ExecuteNowStaysSound(w, b, order);
    NotAliveMeansStrangers(v, a, owners, order);
    NotAliveMeansStrangers(w, b, owners, order);
    ExecutionsAgree(v, w, a, b, order);
    ExecuteNowOwned(v, a, order, owners);
    ExecuteNowOwned(w, b, order, owners);
  }

  lemma PopsAgree(a: Book, b: Book)
    requires Alike(a, b)
    requires (a.stopBids != [] ==> a.stopBids[0].orders != []) && (a.stopAsks != [] ==> a.stopAsks[0].orders != [])
    ensures PopTriggered(a).Some? <==> PopTriggered(b).Some?
    ensures PopTriggered(a).Some? ==>
              && PopTriggered(a).value.order == PopTriggered(b).value.order
              && Alike(PopTriggered(a).value.book, PopTriggered(b).value.book)
  {}

  lemma ActivationsAgree(v: Venue, w: Venue, a: Book, b: Book, owners: Owners)
    requires SameRules(v, w) && Traceable(v, a, owners) && Traceable(w, b, owners) && OneEach(owners) && Alike(a, b)
    requires PopTriggered(a).Some? && PopTriggered(b).Some?
    ensures var d, e := Activated(v, a), Activated(w, b);
            && d.result.Ok? && e.result.Ok?
            && Alike(d.book, e.book) && AlikeExecution(d.result.value, e.result.value)
            && Traceable(v, d.book, owners) && Traceable(w, e.book, owners)
  {
    HeadsHold(v.spec, a);
    HeadsHold(w.spec, b);
    hide LiveIds, WellFormed, ExecuteNow, Uncrossed, Minted, Owned, OwnedBy, Alike, AlikeExecution, PopTriggered,
      Distinct;
    PopsAgree(a, b);
    PopKeeps(v, a);
    PopKeeps(w, b);
    PopStaysSound(v, a);
    PopStaysSound(w, b);
    PopOwned(v, a, owners);
    PopOwned(w, b, owners);
    RunAlike(v, w, PopTriggered(a).value.book, PopTriggered(b).value.book, Activate(PopTriggered(a).value.order),
             owners);
  }

  lemma {:induction false} CascadesAgree(v: Venue, w: Venue, a: Book, b: Book, owners: Owners)
    requires SameRules(v, w) && Traceable(v, a, owners) && Traceable(w, b, owners) && OneEach(owners) && Alike(a, b)
    ensures Cascade(v, a).error.None? && Cascade(w, b).error.None?
    ensures Alike(Cascade(v, a).book, Cascade(w, b).book)
    ensures AlikeLogs(Cascade(v, a).log, Cascade(w, b).log)
    ensures Owned(Cascade(v, a).book, owners) && Owned(Cascade(w, b).book, owners)
    decreases Pending(a)
  {
    HeadsHold(v.spec, a);
    HeadsHold(w.spec, b);
    hide LiveIds, WellFormed, Uncrossed, Minted, Owned, Alike, AlikeExecution, PopTriggered, Activated, Cascade,
      AlikeLogs;
    PopsAgree(a, b);
    CascadeUnfolds(v, a);
    CascadeUnfolds(w, b);
    if PopTriggered(a).Some? {
      ActivatedKeeps(v, a);
      ActivatedKeeps(w, b);
      ActivationsAgree(v, w, a, b, owners);
      CascadesAgree(v, w, Activated(v, a).book, Activated(w, b).book, owners);
      LogsCons(Activated(v, a).result.value, Activated(w, b).result.value,
               Cascade(v, Activated(v, a).book).log, Cascade(w, Activated(w, b).book).log);
    } else {
      assert AlikeLogs([], []) by {
        NoLogs();
      }
    }
  }

  lemma NoLogs()
    ensures AlikeLogs([], [])
  {}

  lemma LogsCons(d: Execution, e: Execution, a: seq<Execution>, b: seq<Execution>)
    requires AlikeExecution(d, e) && AlikeLogs(a, b)
    ensures AlikeLogs([d] + a, [e] + b)
  {
    hide AlikeExecution;
  }

  // -------------------------------------------------------------- submissions

  lemma ParksAgree(a: Book, b: Book, order: Order, owners: Owners)
    requires Alike(a, b) && order.kind.IsStop() && Owned(a, owners) && Owned(b, owners) && OwnedBy([order], owners)
    requires order.id !in LiveIds(a) && order.id !in LiveIds(b)
    ensures var d, e := Park(a, order), Park(b, order);
            && d.result.Ok? && e.result.Ok?
            && Alike(d.book, e.book) && AlikeExecution(d.result.value, e.result.value)
            && Owned(d.book, owners) && Owned(e.book, owners)
  {
    hide LiveIds, Insert, LevelsOwned, SameLadder, AlikeExecution;
    InsertOwned(StopsAscending(order.side), a.Stops(order.side), order.kind.trigger, order, owners);
    NothingHappenedAlike(order);
  }

  lemma ExecutesAgree(v: Venue, w: Venue, a: Book, b: Book, order: Order, owners: Owners)
    requires SameRules(v, w) && Traceable(v, a, owners) && Traceable(w, b, owners) && OneEach(owners) && Alike(a, b)
    requires Whole(v, order) && Admit(v.spec, order).Ok? && OwnedBy([order], owners)
    requires order.id !in LiveIds(a) && order.id !in LiveIds(b)
    requires order.id.FromSequence? && order.id.sequence < a.nextSeq
    ensures var d, e := Execute(v, a, order), Execute(w, b, order);
            && d.result.Ok? && e.result.Ok?
            && Alike(d.book, e.book) && AlikeExecution(d.result.value, e.result.value)
            && Owned(d.book, owners) && Owned(e.book, owners)
  {
    hide LiveIds, WellFormed, ExecuteNow, Uncrossed, Minted, Owned, AlikeExecution, SameLadder, Park, Admit;
    if order.kind.IsStop() {
      if Triggered(a.last, order.side, order.kind.trigger) {
        ActivationStaysAdmitted(v.spec, order);
        assert [order][0] == order && [Activate(order)][0] == Activate(order);
        RunAlike(v, w, a, b, Activate(order), owners);
      } else {
        ParksAgree(a, b, order, owners);
      }
    } else {
      RunAlike(v, w, a, b, order, owners);
    }
  }

  lemma OwnersGrow(levels: seq<PriceLevel>, owners: Owners, n: nat, client: ClientId)
    requires LevelsOwned(levels, owners) && n !in owners
    ensures LevelsOwned(levels, owners[n := client])
  {
    forall i | 0 <= i < |levels|
      ensures OwnedBy(levels[i].orders, owners[n := client])
    {
      assert OwnedBy(levels[i].orders, owners);
    }
  }

  lemma NewOwner(b: Book, owners: Owners, n: nat, client: ClientId)
    requires Owned(b, owners) && OneEach(owners) && n !in owners && client !in owners.Values
    ensures Owned(b.(nextSeq := b.nextSeq + 1), owners[n := client]) && OneEach(owners[n := client])
  {
    OwnersGrow(b.bids, owners, n, client);
    OwnersGrow(b.asks, owners, n, client);
    OwnersGrow(b.stopBids, owners, n, client);
    OwnersGrow(b.stopAsks, owners, n, client);
  }

  /** One admitted submission by a client not seen before. */
  lemma SubmitsAgree(v: Venue, w: Venue, a: Book, b: Book, order: Order, owners: Owners)
    requires SameRules(v, w) && Orderly(v, a) && Orderly(w, b) && Alike(a, b)
    requires Owned(a, owners) && Owned(b, owners) && OneEach(owners)
    requires a.nextSeq !in owners && order.client !in owners.Values
    requires Whole(v, order) && Admit(v.spec, order).Ok?
    ensures var d, e := Submit(v, a, order), Submit(w, b, order);
            var after := owners[a.nextSeq := order.client];
            && d.error == e.error == None && AlikeLogs(d.log, e.log)
            && Alike(d.book, e.book)
            && Owned(d.book, after) && Owned(e.book, after) && OneEach(after)
  {
    hide LiveIds, WellFormed, Execute, Minted, Quiet, Admit, Owned, OneEach, Uncrossed, SameLadder, AlikeExecution,
      Submit, Cascade, AlikeLogs;
    SubmitUnfolds(v, a, order);
    SubmitUnfolds(w, b, order);
    var minted := order.(id := FromSequence(a.nextSeq));
    var c, d := a.(nextSeq := a.nextSeq + 1), b.(nextSeq := b.nextSeq + 1);
    var after := owners[a.nextSeq := order.client];
    FreshId(LiveIds(a), a.nextSeq);
    FreshId(LiveIds(b), b.nextSeq);
    SequenceAdvances(v.spec, a);
    SequenceAdvances(w.spec, b);
    UncrossedIgnoresSequence(a);
    UncrossedIgnoresSequence(b);
    AdmissionIgnoresSize(v.spec, order, order.remaining, FromSequence(a.nextSeq));
    NewOwner(a, owners, a.nextSeq, order.client);
    NewOwner(b, owners, a.nextSeq, order.client);
    assert [minted][0] == minted;
    ExecutesAgree(v, w, c, d, minted, after);
    ExecuteStaysSound(v, c, minted);
    ExecuteStaysSound(w, d, minted);
    CascadesAgree(v, w, Execute(v, c, minted).book, Execute(w, d, minted).book, after);
    LogsCons(Execute(v, c, minted).result.value, Execute(w, d, minted).result.value,
             Cascade(v, Execute(v, c, minted).book).log, Cascade(w, Execute(w, d, minted).book).log);
  }

  // ------------------------------------------------------------------ streams

  ghost predicate DistinctClients(orders: seq<Order>) {
    forall i, j :: 0 <= i < j < |orders| ==> orders[i].client != orders[j].client
  }

  ghost predicate AllWhole(venue: Venue, orders: seq<Order>)
    requires venue.Valid()
  {
    forall i :: 0 <= i < |orders| ==> Whole(venue, orders[i])
  }

  /** After every single submission of the stream the two books report the same
      errors and alike executions, and are alike. */
  ghost predicate AgreeThroughout(v: Venue, w: Venue, a: Book, b: Book, orders: seq<Order>)
    requires SameRules(v, w) && Ready(v, a) && Ready(w, b) && AllWhole(v, orders)
    decreases |orders|
  {
    orders != [] ==>
      var d, e := Submit(v, a, orders[0]), Submit(w, b, orders[0]);
      && d.error == e.error && AlikeLogs(d.log, e.log) && Alike(d.book, e.book)
      && (SubmitKeeps(v, a, orders[0]); SubmitKeeps(w, b, orders[0]);
          AgreeThroughout(v, w, d.book, e.book, orders[1..]))
  }

  lemma {:induction false} StreamsAgree(v: Venue, w: Venue, a: Book, b: Book, orders: seq<Order>, owners: Owners)
    requires SameRules(v, w) && Orderly(v, a) && Orderly(w, b) && Alike(a, b) && AllWhole(v, orders)
    requires Owned(a, owners) && Owned(b, owners) && OneEach(owners)
    requires forall n :: n in owners ==> n < a.nextSeq
    requires DistinctClients(orders) && forall i :: 0 <= i < |orders| ==> orders[i].client !in owners.Values
    ensures AgreeThroughout(v, w, a, b, orders)
    decreases |orders|
  {
    hide LiveIds, WellFormed, Submit, Minted, Quiet, Owned, OneEach, Uncrossed, SameLadder, AlikeExecution;
    if orders != [] {
      var order := orders[0];
      SubmitKeeps(v, a, order);
      SubmitKeeps(w, b, order);
      SubmitIsTotal(v, a, order);
      SubmitIsTotal(w, b, order);
      if Admit(v.spec, order).Ok? {
        SubmitsAgree(v, w, a, b, order, owners);
        StreamsAgree(v, w, Submit(v, a, order).book, Submit(w, b, order).book, orders[1..],
                     owners[a.nextSeq := order.client]);
      } else {
        StreamsAgree(v, w, a, b, orders[1..], owners);
      }
    }
  }

  /** The policy decides who fills, never how much. From empty books, for every
      stream of orders from distinct clients and any two conforming policies. */
  lemma PolicyDecidesWhoNotHowMuch(v: Venue, w: Venue, orders: seq<Order>)
    requires SameRules(v, w) && AllWhole(v, orders) && DistinctClients(orders)
    ensures AgreeThroughout(v, w, EMPTY, EMPTY, orders)
  {
    hide AgreeThroughout, Conforming;
    StreamsAgree(v, w, EMPTY, EMPTY, orders, map[]);
  }
}
