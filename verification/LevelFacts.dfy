/** What inserting into, unlinking from and popping off a sorted list of levels
    keeps and changes. */
module LevelFacts {
  import opened Instrument
  import opened Orders
  import opened Book
  import opened SweepFacts

  // ---------------------------------------------------------------- insert

  lemma {:induction false} InsertStaysBehind(ascending: bool, levels: seq<PriceLevel>, price: Price, order: Order,
                                             front: Price)
    requires Before(ascending, front, price)
    requires forall i :: 0 <= i < |levels| ==> Before(ascending, front, levels[i].price)
    ensures forall i :: 0 <= i < |Insert(ascending, levels, price, order)| ==>
              Before(ascending, front, Insert(ascending, levels, price, order)[i].price)
  {
    if levels != [] && levels[0].price != price && !Before(ascending, price, levels[0].price) {
      InsertStaysBehind(ascending, levels[1..], price, order, front);
    }
  }

  lemma {:induction false} InsertSorted(ascending: bool, levels: seq<PriceLevel>, price: Price, order: Order)
    requires Sorted(ascending, levels)
    ensures Sorted(ascending, Insert(ascending, levels, price, order))
  {
    if levels != [] {
      var after := Insert(ascending, levels, price, order);
      if levels[0].price == price {
        assert forall i :: 0 <= i < |after| ==> after[i].price == levels[i].price;
      } else if Before(ascending, price, levels[0].price) {
        assert forall i :: 0 < i < |after| ==> after[i] == levels[i - 1];
      } else {
        InsertSorted(ascending, levels[1..], price, order);
        InsertStaysBehind(ascending, levels[1..], price, order, levels[0].price);
      }
    }
  }

  lemma {:induction false} InsertCounts(ascending: bool, levels: seq<PriceLevel>, price: Price, order: Order)
    ensures var after := Insert(ascending, levels, price, order);
            && Ids(after) == Ids(levels) + multiset{order.id}
            && Depth(after) == Depth(levels) + order.remaining
            && Parked(after) == Parked(levels) + 1
  {
    Single(order);
    hide Ids, Depth, Parked, IdBag, Quantity;
    if levels == [] {
      HeadReplaced(PriceLevel(price, [order]), []);
      assert [PriceLevel(price, [order])] + [] == [PriceLevel(price, [order])];
      return;
    }
    HeadReplaced(levels[0], levels[1..]);
    assert levels == [levels[0]] + levels[1..];
    if levels[0].price == price {
      IdBagAppends(levels[0].orders, [order]);
      QuantityAppends(levels[0].orders, [order]);
      HeadReplaced(PriceLevel(price, levels[0].orders + [order]), levels[1..]);
    } else if Before(ascending, price, levels[0].price) {
      HeadReplaced(PriceLevel(price, [order]), levels);
    } else {
      InsertCounts(ascending, levels[1..], price, order);
      HeadReplaced(levels[0], Insert(ascending, levels[1..], price, order));
    }
  }

  lemma Single(order: Order)
    ensures IdBag([order]) == multiset{order.id} && Quantity([order]) == order.remaining
  {
    var single := [order];
    assert single[..0] == [];
  }

  lemma HeadReplaced(level: PriceLevel, rest: seq<PriceLevel>)
    ensures Ids([level] + rest) == IdBag(level.orders) + Ids(rest)
    ensures Depth([level] + rest) == Quantity(level.orders) + Depth(rest)
    ensures Parked([level] + rest) == |level.orders| + Parked(rest)
  {
    assert ([level] + rest)[1..] == rest;
  }

  /** How many orders a list of levels holds. */
  function Parked(levels: seq<PriceLevel>): nat {
    if levels == [] then 0 else |levels[0].orders| + Parked(levels[1..])
  }

  lemma LevelsCons(spec: InstrumentSpec, side: Side, bound: nat, level: PriceLevel, rest: seq<PriceLevel>)
    requires spec.lotSize > 0 && LevelOk(spec, side, bound, level)
    requires LevelsOk(spec, side, bound, rest)
    ensures LevelsOk(spec, side, bound, [level] + rest)
  {}

  lemma StopLevelsCons(spec: InstrumentSpec, side: Side, level: PriceLevel, rest: seq<PriceLevel>)
    requires spec.lotSize > 0 && StopLevelOk(spec, side, level)
    requires StopLevelsOk(spec, side, rest)
    ensures StopLevelsOk(spec, side, [level] + rest)
  {}

  lemma {:induction false} InsertRests(spec: InstrumentSpec, side: Side, bound: nat, levels: seq<PriceLevel>,
                                       price: Price, order: Order)
    requires spec.lotSize > 0 && SideOk(spec, side, bound, levels)
    requires order.arrival == bound && QueueOk(spec, side, price, bound + 1, [order])
    ensures SideOk(spec, side, bound + 1, Insert(RestsAscending(side), levels, price, order))
  {
    InsertSorted(RestsAscending(side), levels, price, order);
    InsertQueues(spec, side, bound, levels, price, order);
  }

  lemma {:induction false} InsertQueues(spec: InstrumentSpec, side: Side, bound: nat, levels: seq<PriceLevel>,
                                        price: Price, order: Order)
    requires spec.lotSize > 0
    requires order.arrival == bound && QueueOk(spec, side, price, bound + 1, [order])
    requires LevelsOk(spec, side, bound, levels)
    ensures LevelsOk(spec, side, bound + 1, Insert(RestsAscending(side), levels, price, order))
  {
    forall i | 0 <= i < |levels|
      ensures LevelOk(spec, side, bound + 1, levels[i])
    {
      QueueWiden(spec, side, levels[i].price, bound, bound + 1, levels[i].orders);
    }
    if levels != [] {
      if levels[0].price == price {
        QueueGrow(spec, side, price, bound + 1, levels[0].orders, order);
      } else if !Before(RestsAscending(side), price, levels[0].price) {
        InsertQueues(spec, side, bound, levels[1..], price, order);
        LevelsCons(spec, side, bound + 1, levels[0], Insert(RestsAscending(side), levels[1..], price, order));
      }
    }
  }

  lemma {:induction false} InsertParks(spec: InstrumentSpec, side: Side, stops: seq<PriceLevel>, trigger: Price,
                                       order: Order)
    requires spec.lotSize > 0 && StopsOk(spec, side, stops)
    requires ParkedOk(spec, side, trigger, [order])
    ensures StopsOk(spec, side, Insert(StopsAscending(side), stops, trigger, order))
  {
    InsertSorted(StopsAscending(side), stops, trigger, order);
    InsertParkedQueues(spec, side, stops, trigger, order);
  }

  lemma {:induction false} InsertParkedQueues(spec: InstrumentSpec, side: Side, stops: seq<PriceLevel>, trigger: Price,
                                              order: Order)
    requires spec.lotSize > 0 && ParkedOk(spec, side, trigger, [order])
    requires StopLevelsOk(spec, side, stops)
    ensures StopLevelsOk(spec, side, Insert(StopsAscending(side), stops, trigger, order))
  {
    assert [order][0] == order;
    if stops != [] && stops[0].price != trigger && !Before(StopsAscending(side), trigger, stops[0].price) {
      InsertParkedQueues(spec, side, stops[1..], trigger, order);
      StopLevelsCons(spec, side, stops[0], Insert(StopsAscending(side), stops[1..], trigger, order));
    }
  }

  lemma InsertHead(ascending: bool, levels: seq<PriceLevel>, price: Price, order: Order)
    ensures var after := Insert(ascending, levels, price, order);
            after != [] && (after[0].price == price || (levels != [] && after[0].price == levels[0].price))
  {}

  // ---------------------------------------------------------------- unlink

  lemma {:induction false} UnlinkStaysBehind(ascending: bool, levels: seq<PriceLevel>, id: ExchangeId, front: Price)
    requires forall i :: 0 <= i < |levels| ==> Before(ascending, front, levels[i].price)
    ensures forall i :: 0 <= i < |Unlink(levels, id)| ==> Before(ascending, front, Unlink(levels, id)[i].price)
  {
    if levels != [] {
      UnlinkStaysBehind(ascending, levels[1..], id, front);
    }
  }

  lemma {:induction false} UnlinkSorted(ascending: bool, levels: seq<PriceLevel>, id: ExchangeId)
    requires Sorted(ascending, levels)
    ensures Sorted(ascending, Unlink(levels, id))
    ensures NotBetter(ascending, Unlink(levels, id), levels)
  {
    if levels != [] {
      UnlinkSorted(ascending, levels[1..], id);
      UnlinkStaysBehind(ascending, levels[1..], id, levels[0].price);
    }
  }

  lemma {:induction false} UnlinkIds(levels: seq<PriceLevel>, id: ExchangeId)
    ensures Ids(Unlink(levels, id)) == Ids(levels)[id := 0]
  {
    if levels != [] {
      UnlinkIds(levels[1..], id);
      WithoutIds(levels[0].orders, id);
      var orders, rest := Without(levels[0].orders, id), Unlink(levels[1..], id);
      if orders != [] {
        HeadReplaced(PriceLevel(levels[0].price, orders), rest);
      }
    }
  }

  lemma {:induction false} UnlinkQueues(spec: InstrumentSpec, side: Side, bound: nat, levels: seq<PriceLevel>,
                                        id: ExchangeId)
    requires spec.lotSize > 0
    requires LevelsOk(spec, side, bound, levels)
    ensures LevelsOk(spec, side, bound, Unlink(levels, id))
  {
    if levels != [] {
      UnlinkQueues(spec, side, bound, levels[1..], id);
      WithoutQueue(spec, side, levels[0].price, bound, levels[0].orders, id);
      var orders := Without(levels[0].orders, id);
      if orders != [] {
        LevelsCons(spec, side, bound, PriceLevel(levels[0].price, orders), Unlink(levels[1..], id));
      }
    }
  }

  lemma {:induction false} WithoutParked(spec: InstrumentSpec, side: Side, trigger: Price, orders: seq<Order>,
                                         id: ExchangeId)
    requires spec.lotSize > 0 && ParkedOk(spec, side, trigger, orders)
    ensures ParkedOk(spec, side, trigger, Without(orders, id))
  {
    if orders != [] {
      WithoutParked(spec, side, trigger, orders[..|orders| - 1], id);
    }
  }

  lemma {:induction false} UnlinkParkedQueues(spec: InstrumentSpec, side: Side, stops: seq<PriceLevel>, id: ExchangeId)
    requires spec.lotSize > 0
    requires StopLevelsOk(spec, side, stops)
    ensures StopLevelsOk(spec, side, Unlink(stops, id))
  {
    if stops != [] {
      UnlinkParkedQueues(spec, side, stops[1..], id);
      WithoutParked(spec, side, stops[0].price, stops[0].orders, id);
      var orders := Without(stops[0].orders, id);
      if orders != [] {
        StopLevelsCons(spec, side, PriceLevel(stops[0].price, orders), Unlink(stops[1..], id));
      }
    }
  }

  lemma UnlinkKeepsSide(spec: InstrumentSpec, side: Side, bound: nat, levels: seq<PriceLevel>, id: ExchangeId)
    requires spec.lotSize > 0 && SideOk(spec, side, bound, levels)
    ensures SideOk(spec, side, bound, Unlink(levels, id))
  {
    UnlinkSorted(RestsAscending(side), levels, id);
    UnlinkQueues(spec, side, bound, levels, id);
  }

  lemma UnlinkKeepsStops(spec: InstrumentSpec, side: Side, stops: seq<PriceLevel>, id: ExchangeId)
    requires spec.lotSize > 0 && StopsOk(spec, side, stops)
    ensures StopsOk(spec, side, Unlink(stops, id))
  {
    UnlinkSorted(StopsAscending(side), stops, id);
    UnlinkParkedQueues(spec, side, stops, id);
  }

  // ------------------------------------------------------------------- pop

  /** The list without the oldest order of its first level. */
  function PopFront(levels: seq<PriceLevel>): seq<PriceLevel>
    requires levels != [] && levels[0].orders != []
  {
    if |levels[0].orders| == 1 then levels[1..]
    else [PriceLevel(levels[0].price, levels[0].orders[1..])] + levels[1..]
  }

  lemma PopFrontCounts(levels: seq<PriceLevel>)
    requires levels != [] && levels[0].orders != []
    ensures Ids(levels) == multiset{levels[0].orders[0].id} + Ids(PopFront(levels))
    ensures Parked(PopFront(levels)) + 1 == Parked(levels)
  {
    var orders := levels[0].orders;
    var first := [orders[0]];
    assert orders == first + orders[1..];
    IdBagAppends(first, orders[1..]);
    Single(orders[0]);
    if |orders| > 1 {
      HeadReplaced(PriceLevel(levels[0].price, orders[1..]), levels[1..]);
    } else {
      assert orders[1..] == [];
    }
  }

  lemma ParkedTail(spec: InstrumentSpec, side: Side, trigger: Price, orders: seq<Order>)
    requires spec.lotSize > 0 && ParkedOk(spec, side, trigger, orders) && orders != []
    ensures ParkedOk(spec, side, trigger, orders[1..])
  {
    hide Admit;
  }

  lemma PopFrontKeepsStops(spec: InstrumentSpec, side: Side, stops: seq<PriceLevel>)
    requires spec.lotSize > 0 && StopsOk(spec, side, stops) && stops != []
    ensures StopsOk(spec, side, PopFront(stops))
    ensures NotBetter(StopsAscending(side), PopFront(stops), stops)
  {
    hide ParkedOk;
    var after := PopFront(stops);
    assert StopLevelOk(spec, side, stops[0]);
    ParkedTail(spec, side, stops[0].price, stops[0].orders);
    if |stops[0].orders| == 1 {
      assert forall i :: 0 <= i < |after| ==> after[i] == stops[i + 1];
    } else {
      assert forall i :: 0 <= i < |after| ==> after[i].price == stops[i].price;
      assert forall i :: 0 < i < |after| ==> after[i] == stops[i];
    }
  }

  // ------------------------------------- one order, found where it is known to be

  lemma {:induction false} WithoutAbsent(orders: seq<Order>, id: ExchangeId)
    requires id !in IdBag(orders)
    ensures Without(orders, id) == orders
  {
    if orders != [] {
      WithoutAbsent(orders[..|orders| - 1], id);
    }
  }

  lemma {:induction false} WithoutAppends(a: seq<Order>, b: seq<Order>, id: ExchangeId)
    ensures Without(a + b, id) == Without(a, id) + Without(b, id)
  {
    if b == [] {
      assert a + b == a;
    } else {
      assert (a + b)[..|a + b| - 1] == a + b[..|b| - 1];
      WithoutAppends(a, b[..|b| - 1], id);
    }
  }

  ghost predicate NoneEmpty(levels: seq<PriceLevel>) {
    forall i :: 0 <= i < |levels| ==> levels[i].orders != []
  }

  lemma {:induction false} UnlinkAbsent(levels: seq<PriceLevel>, id: ExchangeId)
    requires id !in Ids(levels) && NoneEmpty(levels)
    ensures Unlink(levels, id) == levels
  {
    if levels != [] {
      UnlinkAbsent(levels[1..], id);
      WithoutAbsent(levels[0].orders, id);
    }
  }

  /** Popping the oldest order of the first level is unlinking it by id. */
  lemma PopIsUnlink(levels: seq<PriceLevel>)
    requires levels != [] && NoneEmpty(levels) && Distinct(Ids(levels))
    ensures PopFront(levels) == Unlink(levels, levels[0].orders[0].id)
  {
    var orders := levels[0].orders;
    var first, rest := [orders[0]], orders[1..];
    var id := orders[0].id;
    assert orders == first + rest;
    IdBagAppends(first, rest);
    Single(orders[0]);
    OnlyOnce(Ids(levels), IdBag(rest), Ids(levels[1..]), id);
    WithoutAppends(first, rest, id);
    assert Without(first, id) == [] by {
      assert first[..0] == [];
    }
    WithoutAbsent(rest, id);
    assert Without(orders, id) == rest;
    hide IdBag, Ids, Distinct;
    UnlinkAbsent(levels[1..], id);
  }

  lemma OnlyOnce(all: multiset<ExchangeId>, here: multiset<ExchangeId>, there: multiset<ExchangeId>, id: ExchangeId)
    requires Distinct(all) && all == multiset{id} + here + there
    ensures id !in here && id !in there
  {
    assert all[id] == 1 + here[id] + there[id];
  }

  /** The order with this id taken out of the level at one price, the level gone
      if that empties it. */
  function UnlinkAt(levels: seq<PriceLevel>, price: Price, id: ExchangeId): seq<PriceLevel> {
    if levels == [] then []
    else if levels[0].price == price then
      var orders := Without(levels[0].orders, id);
      if orders == [] then levels[1..] else [PriceLevel(price, orders)] + levels[1..]
    else [levels[0]] + UnlinkAt(levels[1..], price, id)
  }

  lemma NotInBoth(all: multiset<ExchangeId>, here: multiset<ExchangeId>, there: multiset<ExchangeId>, id: ExchangeId)
    requires Distinct(all) && all == here + there
    ensures id in here ==> id !in there
  {
    assert all[id] == here[id] + there[id];
  }

  /** Looking only where the index points is enough. */
  lemma {:induction false} UnlinkAtIsUnlink(levels: seq<PriceLevel>, i: nat, id: ExchangeId)
    requires NoneEmpty(levels) && Distinct(Ids(levels))
    requires i < |levels| && id in IdBag(levels[i].orders)
    requires forall j, k :: 0 <= j < k < |levels| ==> levels[j].price != levels[k].price
    ensures UnlinkAt(levels, levels[i].price, id) == Unlink(levels, id)
  {
    hide IdBag, Ids, Distinct;
    TailDistinct(levels);
    if i == 0 {
      OnlyInHead(levels, id);
      UnlinkAbsent(levels[1..], id);
    } else {
      OnlyInTail(levels, i, id);
      WithoutAbsent(levels[0].orders, id);
      UnlinkAtIsUnlink(levels[1..], i - 1, id);
    }
  }

  lemma TailDistinct(levels: seq<PriceLevel>)
    requires levels != [] && Distinct(Ids(levels))
    ensures Distinct(Ids(levels[1..]))
  {
    FewerIds(Ids(levels[1..]), Ids(levels));
  }

  lemma OnlyInHead(levels: seq<PriceLevel>, id: ExchangeId)
    requires levels != [] && Distinct(Ids(levels)) && id in IdBag(levels[0].orders)
    ensures id !in Ids(levels[1..])
  {
    NotInBoth(Ids(levels), IdBag(levels[0].orders), Ids(levels[1..]), id);
  }

  lemma OnlyInTail(levels: seq<PriceLevel>, i: nat, id: ExchangeId)
    requires Distinct(Ids(levels)) && 0 < i < |levels| && id in IdBag(levels[i].orders)
    ensures id !in IdBag(levels[0].orders)
  {
    ListedBehind(levels[1..], i - 1, id);
    NotInBoth(Ids(levels), IdBag(levels[0].orders), Ids(levels[1..]), id);
  }

  lemma FewerIds(fewer: multiset<ExchangeId>, more: multiset<ExchangeId>)
    requires fewer <= more && Distinct(more)
    ensures Distinct(fewer)
  {
    forall id
      ensures fewer[id] <= 1
    {
      assert fewer[id] <= more[id];
    }
  }

  lemma {:induction false} ListedBehind(levels: seq<PriceLevel>, i: nat, id: ExchangeId)
    requires i < |levels| && id in IdBag(levels[i].orders)
    ensures id in Ids(levels)
  {
    if i > 0 {
      ListedBehind(levels[1..], i - 1, id);
    }
  }

  lemma {:induction false} IdIsCounted(orders: seq<Order>, j: nat)
    requires j < |orders|
    ensures orders[j].id in IdBag(orders)
  {
    if j < |orders| - 1 {
      IdIsCounted(orders[..|orders| - 1], j);
    }
  }

  lemma {:induction false} IdIsListed(levels: seq<PriceLevel>, i: nat, j: nat)
    requires i < |levels| && j < |levels[i].orders|
    ensures levels[i].orders[j].id in Ids(levels)
  {
    if i == 0 {
      IdIsCounted(levels[0].orders, j);
    } else {
      IdIsListed(levels[1..], i - 1, j);
    }
  }

  lemma {:induction false} CountedAt(orders: seq<Order>, id: ExchangeId) returns (j: nat)
    requires id in IdBag(orders)
    ensures j < |orders| && orders[j].id == id
  {
    j := |orders| - 1;
    if orders[j].id != id {
      j := CountedAt(orders[..j], id);
    }
  }
}
