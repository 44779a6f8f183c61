/** What adding and cancelling do to who rests and who is parked, and that this is
    all there is to say. */
module Contents {
  import opened Wrappers
  import opened Instrument
  import opened Orders
  import opened Book
  import opened Engine
  import opened Prints
  import opened Firing
  import opened Reports

  // ---------------------------------------------------- contents say it all

  /** A queue in strict arrival order is determined by who is in it. */
  ghost predicate InArrivalOrder(orders: seq<Order>) {
    forall i, j :: 0 <= i < j < |orders| ==> orders[i].arrival < orders[j].arrival
  }

  lemma {:induction false} QueueIsDetermined(a: seq<Order>, b: seq<Order>)
    requires InArrivalOrder(a) && InArrivalOrder(b)
    requires forall o :: o in a <==> o in b
    ensures a == b
  {
    if a == [] {
      if b != [] {
        SomebodyThere(b, a);
      }
    } else {
      SomebodyThere(a, b);
      assert a[0] in b && b[0] in a;
      assert a[0] == b[0];
      forall o
        ensures o in a[1..] <==> o in b[1..]
      {
        if o in a[1..] {
          BehindTheFirst(a, b, o);
        }
        if o in b[1..] {
          BehindTheFirst(b, a, o);
        }
      }
      QueueIsDetermined(a[1..], b[1..]);
    }
  }

  lemma SomebodyThere(a: seq<Order>, b: seq<Order>)
    requires a != [] && forall o :: o in a ==> o in b
    ensures b != []
  {
    assert a[0] in b;
  }

  lemma BehindTheFirst(a: seq<Order>, b: seq<Order>, o: Order)
    requires InArrivalOrder(a) && InArrivalOrder(b) && a != [] && b != [] && a[0] == b[0]
    requires o in a[1..] && forall p :: p in a <==> p in b
    ensures o in b[1..]
  {
    assert o in a && o in b;
  }

  lemma HeadIsThere(spec: InstrumentSpec, side: Side, bound: nat, levels: seq<PriceLevel>)
    requires spec.lotSize > 0 && SideOk(spec, side, bound, levels) && levels != []
    ensures levels[0].orders != []
  {
    assert LevelOk(spec, side, bound, levels[0]);
  }

  lemma HeadIsAtItsPrice(spec: InstrumentSpec, side: Side, bound: nat, levels: seq<PriceLevel>, o: Order)
    requires spec.lotSize > 0 && SideOk(spec, side, bound, levels) && levels != []
    ensures InArrivalOrder(levels[0].orders) && levels[0].orders != [] && Resting(levels, levels[0].orders[0])
    ensures Resting(levels, o) ==> o.kind.Limit?
    ensures o in levels[0].orders <==> Resting(levels, o) && o.kind.price == levels[0].price
    ensures Resting(levels, o) ==>
              o.kind.price == levels[0].price || Before(RestsAscending(side), levels[0].price, o.kind.price)
    ensures Resting(levels[1..], o) <==> Resting(levels, o) && o.kind.price != levels[0].price
    ensures SideOk(spec, side, bound, levels[1..])
  {
    assert LevelOk(spec, side, bound, levels[0]);
    assert levels[0].orders[0] in levels[0].orders;
    RestsSomewhere(levels, o);
    if Resting(levels[1..], o) {
      var i :| 0 <= i < |levels[1..]| && o in levels[1..][i].orders;
      assert LevelOk(spec, side, bound, levels[i + 1]);
    }
  }

  /** A side of the book is determined by who rests on it. */
  lemma {:induction false} SideIsDetermined(spec: InstrumentSpec, side: Side, bound: nat, a: seq<PriceLevel>,
                                            b: seq<PriceLevel>)
    requires spec.lotSize > 0 && SideOk(spec, side, bound, a) && SideOk(spec, side, bound, b)
    requires forall o :: Resting(a, o) <==> Resting(b, o)
    ensures a == b
  {
    hide SideOk, Resting;
    if a == [] || b == [] {
      EmptySides(spec, side, bound, a, b);
    } else {
      HeadIsThere(spec, side, bound, a);
      HeadIsThere(spec, side, bound, b);
      HeadIsAtItsPrice(spec, side, bound, a, a[0].orders[0]);
      HeadIsAtItsPrice(spec, side, bound, b, a[0].orders[0]);
      HeadIsAtItsPrice(spec, side, bound, a, b[0].orders[0]);
      HeadIsAtItsPrice(spec, side, bound, b, b[0].orders[0]);
      forall o
        ensures o in a[0].orders <==> o in b[0].orders
        ensures Resting(a[1..], o) <==> Resting(b[1..], o)
      {
        HeadIsAtItsPrice(spec, side, bound, a, o);
        HeadIsAtItsPrice(spec, side, bound, b, o);
      }
      QueueIsDetermined(a[0].orders, b[0].orders);
      SideIsDetermined(spec, side, bound, a[1..], b[1..]);
    }
  }

  lemma EmptySides(spec: InstrumentSpec, side: Side, bound: nat, a: seq<PriceLevel>, b: seq<PriceLevel>)
    requires spec.lotSize > 0 && SideOk(spec, side, bound, a) && SideOk(spec, side, bound, b)
    requires forall o :: Resting(a, o) <==> Resting(b, o)
    requires a == [] || b == []
    ensures a == b
  {
    if a != [] {
      HeadIsAtItsPrice(spec, side, bound, a, a[0].orders[0]);
    }
    if b != [] {
      HeadIsAtItsPrice(spec, side, bound, b, b[0].orders[0]);
    }
  }

  // --------------------------------------------------- adding and cancelling

  lemma {:induction false} WithoutBrings(orders: seq<Order>, id: ExchangeId, o: Order)
    ensures o in Without(orders, id) <==> o in orders && o.id != id
  {
    if orders != [] {
      WithoutBrings(orders[..|orders| - 1], id, o);
      assert orders == orders[..|orders| - 1] + [orders[|orders| - 1]];
    }
  }

  lemma {:induction false} UnlinkBrings(levels: seq<PriceLevel>, id: ExchangeId, o: Order)
    ensures Resting(Unlink(levels, id), o) <==> Resting(levels, o) && o.id != id
  {
    hide Resting, Without;
    if levels == [] {
      NothingRests(o);
    } else {
      UnlinkBrings(levels[1..], id, o);
      WithoutBrings(levels[0].orders, id, o);
      RestsSomewhere(levels, o);
      var orders, rest := Without(levels[0].orders, id), Unlink(levels[1..], id);
      if orders != [] {
        var after := [PriceLevel(levels[0].price, orders)] + rest;
        RestsSomewhere(after, o);
        assert after[1..] == rest;
      }
    }
  }

  /** Cancelling takes the order of that id away, wherever it rests or is parked,
      and changes nothing else. */
  lemma CancelTakesOne(b: Book, id: ExchangeId)
    requires id in LiveIds(b)
    ensures var after := CancelOrder(b, id).book;
            && after.last == b.last && after.nextSeq == b.nextSeq && after.nextArrival == b.nextArrival
            && (forall o :: Resting(after.bids, o) <==> Resting(b.bids, o) && o.id != id)
            && (forall o :: Resting(after.asks, o) <==> Resting(b.asks, o) && o.id != id)
            && (forall s :: IsParked(after, s) <==> IsParked(b, s) && s.id != id)
  {
    hide LiveIds, Unlink, Resting;
    forall o
      ensures Resting(Unlink(b.bids, id), o) <==> Resting(b.bids, o) && o.id != id
      ensures Resting(Unlink(b.asks, id), o) <==> Resting(b.asks, o) && o.id != id
      ensures Resting(Unlink(b.stopBids, id), o) <==> Resting(b.stopBids, o) && o.id != id
      ensures Resting(Unlink(b.stopAsks, id), o) <==> Resting(b.stopAsks, o) && o.id != id
    {
      UnlinkBrings(b.bids, id, o);
      UnlinkBrings(b.asks, id, o);
      UnlinkBrings(b.stopBids, id, o);
      UnlinkBrings(b.stopAsks, id, o);
    }
  }

  /** Adding rests the order on its own side, stamped with the next arrival, and
      changes nothing else. */
  lemma AddRestsOne(spec: InstrumentSpec, b: Book, order: Order)
    requires AddOrder(spec, b, order).error.None?
    ensures order.kind.Limit?
    ensures var after := AddOrder(spec, b, order).book;
            && Facing(after, order.side) == Facing(b, order.side)
            && after.last == b.last && after.nextSeq == b.nextSeq && after.nextArrival == b.nextArrival + 1
            && after.stopBids == b.stopBids && after.stopAsks == b.stopAsks
            && (forall o :: Resting(Beside(after, order.side), o) <==>
                  Resting(Beside(b, order.side), o) || o == order.(arrival := b.nextArrival))
  {
    hide LiveIds, Insert, Admit, Resting;
    AddedIs(spec, b, order);
    forall o
      ensures Resting(Beside(AddOrder(spec, b, order).book, order.side), o) <==>
              Resting(Beside(b, order.side), o) || o == order.(arrival := b.nextArrival)
    {
      InsertBrings(RestsAscending(order.side), Beside(b, order.side), order.kind.price,
                   order.(arrival := b.nextArrival), o);
    }
  }

  /** Seeding goes ahead exactly for an acceptable limit order whose id is free, and
      says which of the three is missing. */
  lemma AddSucceedsExactlyWhen(spec: InstrumentSpec, b: Book, order: Order)
    ensures AddOrder(spec, b, order).error.None? <==>
            order.kind.Limit? && Acceptable(spec, order) && order.id !in LiveIds(b)
    ensures match AddOrder(spec, b, order).error
            case None => true
            case Some(NotRestable) => !order.kind.Limit?
            case Some(Rejected(reason)) => !Acceptable(spec, order) && Admit(spec, order) == Err(reason)
            case Some(ExchangeIdDuplicated) => order.id in LiveIds(b)
            case Some(_) => false
  {
    hide LiveIds, Admit, Insert, Acceptable;
    AdmitsExactly(spec, order);
  }
}
