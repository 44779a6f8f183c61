/** The book as it runs: a level store behind requests and tables updated in place,
    step by step, proved to do what the functions of Engine say while the ownership
    relation holds. */
module OrderBooks {
  import opened Sums
  import opened Wrappers
  import opened Instrument
  import opened Allocation
  import opened Orders
  import opened Book
  import opened SweepFacts
  import opened LevelFacts
  import opened Engine
  import opened Discipline
  import Firing
  import Reports
  import opened Ownership
  import opened Storage
  import opened LadderStore
  import opened Backends
  import opened Ticking

  class OrderBook {
    const venue: Venue
    const store: Backend
    ghost var bids: seq<KeyLevel>
    ghost var asks: seq<KeyLevel>
    var nodes: map<Key, Order>
    var nextKey: Key
    var stopBids: seq<PriceLevel>
    var stopAsks: seq<PriceLevel>
    var lastTradePrice: Option<Price>
    var index: map<ExchangeId, Address>
    var nextSeq: nat
    var nextArrival: nat
    ghost var book: Book

    ghost function View(): Tables
      reads this
    {
      Tables(bids, asks, nodes, index, stopBids, stopAsks)
    }

    ghost predicate Counters()
      reads this
    {
      && lastTradePrice == book.last && nextSeq == book.nextSeq && nextArrival == book.nextArrival
      && forall key :: key in nodes ==> key < nextKey
    }

    /** The store keeps the two sides, and was built for this instrument. */
    ghost predicate Stored()
      reads this`bids, this`asks, store.Repr()
    {
      store.Holds(Sides(bids, asks)) && Fits(store, venue.spec)
    }

    ghost predicate Linked()
      reads this, store.Repr()
    {
      Owns(View()) && Stored() && this !in store.Repr()
    }

    /** The tables agree with each other and show the abstract book. */
    ghost predicate Consistent()
      reads this, store.Repr()
    {
      venue.Valid() && Linked() && Shows(View(), book) && Counters()
    }

    ghost predicate Valid()
      reads this, store.Repr()
    {
      Consistent() && WellFormed(venue.spec, book)
    }

    /** A book over the store asked for, or the store's refusal. */
    static method TryNew(venue: Venue, layout: Layout, room: nat) returns (r: Result<OrderBook, StoreError>)
      requires venue.Valid()
      ensures r.Err? <==> layout == Laddered && !LadderFits(venue.spec, room)
      ensures r.Ok? ==> && fresh(r.value) && fresh(r.value.store.Repr())
                        && r.value.Valid() && r.value.book == EMPTY && r.value.venue == venue
                        && r.value.store.Ladder? == (layout == Laddered)
    {
      var built := Open(layout, venue.spec, room);
      if built.Err? {
        return Err(built.error);
      }
      var b := new OrderBook(venue, built.value);
      return Ok(b);
    }

    constructor (venue: Venue, store: Backend)
      requires venue.Valid() && store.Holds(Sides([], [])) && Fits(store, venue.spec)
      ensures Valid() && book == EMPTY && this.venue == venue && this.store == store
    {
      this.venue, this.store := venue, store;
      bids, asks, nodes, nextKey, index := [], [], map[], 0, map[];
      stopBids, stopAsks, lastTradePrice, nextSeq, nextArrival := [], [], None, 1, 1;
      book := EMPTY;
    }

    ghost function LevelsOf(side: Side): seq<KeyLevel>
      reads this`bids, this`asks
    {
      if side == Bid then bids else asks
    }

    // -------------------------------------------------------- asking the store

    /** The touch. */
    method Touch(side: Side) returns (best: Option<KeyLevel>)
      requires Stored()
      ensures best == if LevelsOf(side) == [] then None else Some(LevelsOf(side)[0])
    {
      best := store.Best(side, Sides(bids, asks));
    }

    method Head(side: Side) returns (level: KeyLevel)
      requires Stored() && LevelsOf(side) != []
      ensures level == LevelsOf(side)[0]
    {
      var best := Touch(side);
      level := best.value;
    }

    method Listing(side: Side) returns (levels: seq<KeyLevel>)
      requires Stored()
      ensures levels == LevelsOf(side)
    {
      levels := store.Listing(side, Sides(bids, asks));
    }

    /** The listing of a side becomes what the store was made to hold. */
    ghost method Relist(side: Side, levels: seq<KeyLevel>)
      requires store.Holds(Sides(bids, asks).With(side, levels)) && Fits(store, venue.spec)
      modifies this`bids, this`asks
      ensures Stored() && View() == old(View()).WithLevels(side, levels)
    {
      if side == Bid {
        bids := levels;
      } else {
        asks := levels;
      }
    }

    method WriteHead(side: Side, level: KeyLevel)
      requires Stored() && LevelsOf(side) != [] && LevelsOf(side)[0].price == level.price
      modifies this`bids, this`asks, store.Repr()
      ensures Stored() && View() == old(View()).WithLevels(side, [level] + old(LevelsOf(side))[1..])
    {
      store.Rewrite(side, level.price, level.keys, Sides(bids, asks));
      Relist(side, [level] + LevelsOf(side)[1..]);
    }

    method RemoveHead(side: Side, price: Price)
      requires Stored() && LevelsOf(side) != [] && LevelsOf(side)[0].price == price
      modifies this`bids, this`asks, store.Repr()
      ensures Stored() && View() == old(View()).WithLevels(side, old(LevelsOf(side))[1..])
    {
      store.RemoveBest(side, price, Sides(bids, asks));
      Relist(side, LevelsOf(side)[1..]);
    }

    method FileKey(side: Side, price: Price, key: Key) returns (refused: Option<StoreError>)
      requires Stored()
      modifies this`bids, this`asks, store.Repr()
      ensures refused == if store.Seats(price) then None else Some(PriceOutsideRange)
      ensures Stored() && View() == if refused.Some? then old(View()) else
                old(View()).WithLevels(side, Enqueue(RestsAscending(side), old(LevelsOf(side)), price, key))
    {
      hide Enqueue;
      ghost var levels := Enqueue(RestsAscending(side), LevelsOf(side), price, key);
      refused := store.File(side, price, key, Sides(bids, asks));
      if refused.None? {
        Relist(side, levels);
      }
    }

    method DropFrom(side: Side, price: Price, key: Key)
      requires Stored() && price in ShelfOf(LevelsOf(side))
      modifies this`bids, this`asks, store.Repr()
      ensures Stored()
      ensures View() == old(View()).WithLevels(side, RemoveEmpty(DropKey(old(LevelsOf(side)), price, key), price))
    {
      hide RemoveEmpty, DropKey, ShelfOf;
      ghost var levels := RemoveEmpty(DropKey(LevelsOf(side), price, key), price);
      store.Drop(side, price, key, Sides(bids, asks));
      Relist(side, levels);
    }

    // ------------------------------------------------------------- one level

    /** Unlink one node from its queue, free it, forget its id. */
    method Unfile(side: Side, key: Key)
      requires Linked() && LevelsOf(side) != [] && DistinctPrices(LevelsOf(side))
      requires key in LevelsOf(side)[0].keys
      modifies this`bids, this`asks, this`nodes, this`index, store.Repr()
      ensures Linked() && HeadOnly(old(View()), View(), side)
      ensures LevelsOf(side) != [] && LevelsOf(side)[0].keys == Keep(old(LevelsOf(side)[0].keys), {key})
      ensures nodes == old(nodes) - {key}
    {
      hide Stored, Owns, DropNode, Keep, DistinctPrices, HeadOnly;
      ghost var t := View();
      DropHead(t, side, key);
      var id := nodes[key].id;
      var level := Head(side);
      WriteHead(side, KeyLevel(level.price, Keep(level.keys, {key})));
      nodes, index := nodes - {key}, index - {id};
      assert View() == DropNode(t, key);
    }

    /** The same, once some of the queue as it stood at `t` has gone already. */
    method UnfileNext(side: Side, key: Key, ghost t: Tables, ghost queue: seq<Key>, ghost dead: set<Key>)
      requires Linked() && HeadOnly(t, View(), side) && DistinctPrices(t.Levels(side))
      requires LevelsOf(side) != [] && LevelsOf(side)[0].keys == Keep(queue, dead)
      requires nodes == t.nodes - dead && key in queue && key !in dead
      modifies this`bids, this`asks, this`nodes, this`index, store.Repr()
      ensures Linked() && HeadOnly(t, View(), side)
      ensures LevelsOf(side) != [] && LevelsOf(side)[0].keys == Keep(queue, dead + {key})
      ensures nodes == t.nodes - (dead + {key})
    {
      hide Stored, Owns, HeadOnly, DistinctPrices, Keep;
      ghost var mid := View();
      HeadOnlyDistinct(t, mid, side);
      KeepMembers(queue, dead);
      Unfile(side, key);
      HeadOnlyChains(t, mid, View(), side);
      KeepTwice(queue, dead, key);
    }

    /** Self-trade prevention: the client's own orders at the best level go,
        oldest first, before anything there is matched. */
    method RemoveOwn(side: Side, client: ClientId, ghost orders: seq<Order>)
      returns (cancelled: seq<ExchangeId>)
      requires Linked() && LevelsOf(side) != [] && DistinctPrices(LevelsOf(side))
      requires Resolves(LevelsOf(side)[0].keys, nodes, orders)
      modifies this`bids, this`asks, this`nodes, this`index, store.Repr()
      ensures Linked() && HeadOnly(old(View()), View(), side)
      ensures Resolves(LevelsOf(side)[0].keys, nodes, Foreign(orders, client))
      ensures cancelled == IdsOf(Own(orders, client))
    {
      hide Stored, Owns, HeadOnly, DistinctPrices, Keep, OwnKeys, Own;
      ghost var t := View();
      var level := Head(side);
      var queue := level.keys;
      ghost var dead := OwnKeys(queue, orders, client, 0);
      NoOwnYet(queue, orders, client);
      cancelled := [];
      KeepAll(queue);
      HeadOnlyItself(t, side);
      QueueDistinct(t, side);
      var i := 0;
      while i < |queue|
        invariant i <= |queue|
        invariant Linked() && HeadOnly(t, View(), side)
        invariant LevelsOf(side) != [] && LevelsOf(side)[0].keys == Keep(queue, dead)
        invariant nodes == t.nodes - dead
        invariant dead == OwnKeys(queue, orders, client, i)
        invariant cancelled == IdsOf(Own(orders[..i], client))
      {
        var key := queue[i];
        OwnExtends(orders, i, client);
        OwnKeysExtend(queue, orders, client, i);
        assert nodes[key] == orders[i];
        if nodes[key].client == client {
          cancelled := cancelled + [nodes[key].id];
          UnfileNext(side, key, t, queue, dead);
          dead := dead + {key};
        }
        i := i + 1;
      }
      assert orders[..|queue|] == orders;
      DeadAreOwn(queue, orders, client);
      ForeignResolves(queue, t.nodes, nodes, orders, client, dead);
    }

    /** Write one maker's remaining quantity down, in place. */
    method Refill(side: Side, key: Key, remaining: nat, ghost t: Tables)
      requires Linked() && HeadOnly(t, View(), side)
      requires LevelsOf(side) != [] && key in LevelsOf(side)[0].keys && key in nodes
      modifies this`nodes
      ensures Linked() && HeadOnly(t, View(), side)
      ensures nodes == old(nodes)[key := old(nodes)[key].(remaining := remaining)]
    {
      hide Stored, Owns, HeadOnly;
      ghost var mid := View();
      FillHead(t, mid, side, key, remaining);
      nodes := nodes[key := nodes[key].(remaining := remaining)];
      assert View() == Refilled(mid, key, remaining);
    }

    /** Apply the fills forward, removing nothing: they index into the queue as
        the policy saw it. */
    method ApplyFills(side: Side, fills: seq<Fill>, price: Price, taker: Order, ghost orders: seq<Order>)
      returns (remaining: nat, trades: seq<Trade>)
      requires Linked() && LevelsOf(side) != []
      requires Resolves(LevelsOf(side)[0].keys, nodes, orders)
      requires Increasing(fills) && Sum(Quantities(fills)) <= taker.remaining
      requires forall k :: 0 <= k < |fills| ==>
                 fills[k].index < |orders| && fills[k].quantity <= orders[fills[k].index].remaining
      modifies this`nodes
      ensures Linked() && HeadOnly(old(View()), View(), side)
      ensures Paid(LevelsOf(side)[0].keys, nodes, orders, fills)
      ensures remaining == taker.remaining - Sum(Quantities(fills))
      ensures trades == TradesOf(price, orders, fills, taker)
    {
      hide Stored, Owns, HeadOnly, Paid, TradesOf, Quantities, Increasing, ShareOf, Resolves, Sum;
      ghost var t := View();
      var level := Head(side);
      var queue := level.keys;
      QueueDistinct(t, side);
      HeadOnlyItself(t, side);
      PaidNothing(queue, nodes, orders);
      NothingApplied(price, orders, fills, taker);
      remaining, trades := taker.remaining, [];
      var n := 0;
      while n < |fills|
        invariant n <= |fills|
        invariant Linked() && HeadOnly(t, View(), side)
        invariant Paid(queue, nodes, orders, fills[..n])
        invariant remaining == taker.remaining - Sum(Quantities(fills)[..n])
        invariant trades == TradesOf(price, orders, fills[..n], taker)
      {
        var fill := fills[n];
        var key := queue[fill.index];
        FillApplied(queue, nodes, orders, fills, n, taker.remaining);
        TradesExtend(price, orders, fills, n, taker);
        var maker := nodes[key];
        trades := trades + [Trade(price, fill.quantity, maker.id, taker.id, maker.client, taker.client,
                                  taker.side, taker.timestamp)];
        Refill(side, key, maker.remaining - fill.quantity, t);
        remaining := remaining - fill.quantity;
        n := n + 1;
      }
      assert fills[..|fills|] == fills && Quantities(fills)[..|fills|] == Quantities(fills);
    }

    /** Unlink the makers the fills exhausted. */
    method UnlinkExhausted(side: Side, fills: seq<Fill>, ghost orders: seq<Order>)
      requires Linked() && LevelsOf(side) != [] && DistinctPrices(LevelsOf(side))
      requires Increasing(fills) && Paid(LevelsOf(side)[0].keys, nodes, orders, fills)
      requires forall k :: 0 <= k < |fills| ==> fills[k].index < |orders| && fills[k].quantity > 0
      modifies this`bids, this`asks, this`nodes, this`index, store.Repr()
      ensures Linked() && HeadOnly(old(View()), View(), side)
      ensures Settled(LevelsOf(side), nodes, orders, fills)
    {
      hide Stored, Owns, HeadOnly, DistinctPrices, Keep, Resolves, Settle, Paid, Spent;
      PaidThere(LevelsOf(side)[0].keys, nodes, orders, fills);
      ghost var t := View();
      var level := Head(side);
      var queue := level.keys;
      ghost var dead: set<Key> := {};
      QueueDistinct(t, side);
      HeadOnlyItself(t, side);
      KeepAll(queue);
      NothingSpent(queue, t.nodes, fills);
      var n := 0;
      while n < |fills|
        invariant n <= |fills|
        invariant Linked() && HeadOnly(t, View(), side)
        invariant LevelsOf(side) != [] && LevelsOf(side)[0].keys == Keep(queue, dead)
        invariant nodes == t.nodes - dead
        invariant dead == Spent(queue, t.nodes, fills, n)
      {
        var key := queue[fills[n].index];
        SpentExtends(queue, t.nodes, fills, n);
        if nodes[key].remaining == 0 {
          UnfileNext(side, key, t, queue, dead);
          dead := dead + {key};
        }
        n := n + 1;
      }
      SettledQueue(queue, t.nodes, orders, fills, dead);
    }

    /** The best level's queue as the policy sees it, oldest first. */
    method CollectMakers(side: Side, ghost orders: seq<Order>) returns (makers: seq<Maker>)
      requires Stored() && LevelsOf(side) != [] && Resolves(LevelsOf(side)[0].keys, nodes, orders)
      ensures makers == MakersOf(orders)
    {
      var level := Head(side);
      var queue := level.keys;
      makers := [];
      for i := 0 to |queue|
        invariant makers == MakersOf(orders)[..i]
      {
        makers := makers + [Maker(nodes[queue[i]].remaining, nodes[queue[i]].arrival)];
      }
    }

    /** Hand the best level to the policy and settle what it decides. */
    method MatchBest(side: Side, price: Price, taker: Order, now: nat, ghost orders: seq<Order>)
      returns (remaining: nat, trades: seq<Trade>, ghost fills: seq<Fill>)
      requires venue.Valid() && Linked() && Whole(venue, taker) && OnLots(orders, venue.spec.lotSize)
      requires LevelsOf(side) != [] && DistinctPrices(LevelsOf(side))
      requires Resolves(LevelsOf(side)[0].keys, nodes, orders)
      modifies this`bids, this`asks, this`nodes, this`index, store.Repr()
      ensures Linked() && HeadOnly(old(View()), View(), side)
      ensures fills == venue.policy(taker.remaining, MakersOf(orders), now)
      ensures Contract(taker.remaining, MakersOf(orders), fills, venue.spec.lotSize)
      ensures Settled(LevelsOf(side), nodes, orders, fills)
      ensures remaining == taker.remaining - Sum(Quantities(fills))
      ensures trades == TradesOf(price, orders, fills, taker)
    {
      hide Stored, Owns, HeadOnly, DistinctPrices, Resolves, Conforming, Settle, TradesOf, Paid, Contract,
        Quantities, Increasing, Settled, MakersOf, OnLots, Shares, Sum;
      PolicyApplied(venue.policy, venue.spec.lotSize, taker.remaining, orders, now);
      ghost var t := View();
      var makers := CollectMakers(side, orders);
      var decided := venue.policy(taker.remaining, makers, now);
      fills := decided;
      FillsFit(taker.remaining, orders, fills, venue.spec.lotSize);
      remaining, trades := ApplyFills(side, decided, price, taker, orders);
      ghost var mid := View();
      HeadOnlyDistinct(t, mid, side);
      HeadStays(t, mid, side);
      UnlinkExhausted(side, decided, orders);
      HeadOnlyChains(t, mid, View(), side);
      HeadStays(t, View(), side);
    }

    /** Everything one taker does to the best level: the client's own orders go
        first, then the policy is asked, then what it decided is settled. */
    method WorkBest(side: Side, price: Price, taker: Order, now: nat, ghost level: PriceLevel)
      returns (remaining: nat, trades: seq<Trade>, cancelled: seq<ExchangeId>, ghost swept: LevelSweep)
      requires venue.Valid() && Linked() && Whole(venue, taker) && OnLots(level.orders, venue.spec.lotSize)
      requires LevelsOf(side) != [] && DistinctPrices(LevelsOf(side)) && price == level.price
      requires Resolves(LevelsOf(side)[0].keys, nodes, level.orders)
      modifies this`bids, this`asks, this`nodes, this`index, store.Repr()
      ensures Linked() && HeadOnly(old(View()), View(), side)
      ensures swept == SweepLevel(venue.policy, venue.spec.lotSize, level, taker, now)
      ensures LevelsOf(side) != [] && Resolves(LevelsOf(side)[0].keys, nodes, swept.orders)
      ensures remaining == swept.remaining && trades == swept.trades && cancelled == IdsOf(swept.removed)
    {
      hide Stored, Owns, HeadOnly, DistinctPrices, Resolves, Foreign, Own, Conforming, Settle, TradesOf, Contract,
        SweepLevel, OnLots, Shares, Quantities;
      ghost var t := View();
      ForeignOnLots(level.orders, taker.client, venue.spec.lotSize);
      cancelled := RemoveOwn(side, taker.client, level.orders);
      ghost var foreign, mid := Foreign(level.orders, taker.client), View();
      HeadOnlyDistinct(t, mid, side);
      HeadStays(t, mid, side);
      ghost var fills;
      remaining, trades, fills := MatchBest(side, price, taker, now, foreign);
      HeadOnlyChains(t, mid, View(), side);
      SweepLevelIs(venue.policy, venue.spec.lotSize, level, taker, now, fills);
      swept := SweepLevel(venue.policy, venue.spec.lotSize, level, taker, now);
    }

    /** One level, swept in place, and the abstract book with it. */
    method SweepBest(side: Side, price: Price, taker: Order, now: nat, ghost before: Book, ghost level: PriceLevel)
      returns (remaining: nat, trades: seq<Trade>, cancelled: seq<ExchangeId>, ghost swept: LevelSweep)
      requires Consistent() && Whole(venue, taker) && before == book
      requires LevelsOf(side) != [] && DistinctPrices(LevelsOf(side))
      requires before.Levels(side) != [] && level == before.Levels(side)[0] && price == level.price
      requires OnLots(level.orders, venue.spec.lotSize)
      modifies this`bids, this`asks, this`nodes, this`index, this`book, store.Repr()
      ensures Consistent()
      ensures swept == SweepLevel(venue.policy, venue.spec.lotSize, level, taker, now)
      ensures remaining == swept.remaining && trades == swept.trades && cancelled == IdsOf(swept.removed)
      ensures book == before.WithLevels(side, [PriceLevel(level.price, swept.orders)] + before.Levels(side)[1..])
    {
      hide Stored, Owns, HeadOnly, Shows, DistinctPrices, Resolves, Conforming, SweepLevel, OnLots;
      ghost var t := View();
      HeadShown(t, before, side);
      remaining, trades, cancelled, swept := WorkBest(side, price, taker, now, level);
      HeadStays(t, View(), side);
      HeadChanged(t, View(), before, side, swept.orders);
      book := before.WithLevels(side, [PriceLevel(level.price, swept.orders)] + before.Levels(side)[1..]);
    }

    /** A drained level leaves the store. */
    method RemoveBest(side: Side, price: Price, ghost before: Book)
      requires Consistent() && before == book
      requires before.Levels(side) != [] && before.Levels(side)[0].orders == [] && before.Levels(side)[0].price == price
      modifies this`bids, this`asks, this`book, store.Repr()
      ensures Consistent() && book == before.WithLevels(side, before.Levels(side)[1..])
    {
      hide Stored, Owns, Shows, RemoveEmpty;
      ghost var t := View();
      DrainedHead(t, before, side);
      RemoveHead(side, price);
      book := before.WithLevels(side, before.Levels(side)[1..]);
      assert View() == t.WithLevels(side, t.Levels(side)[1..]);
    }

    // --------------------------------------------------------------- a sweep

    /** One pass of the walk: the best level is swept and leaves the store if it
        drained. */
    method PassBest(side: Side, price: Price, taker: Order, now: nat, ghost before: Book, ghost levels: seq<PriceLevel>)
      returns (remaining: nat, trades: seq<Trade>, cancelled: seq<ExchangeId>, drained: bool, ghost one: LevelSweep)
      requires Consistent() && Whole(venue, taker) && before == book && levels == before.Levels(side)
      requires LevelsOf(side) != [] && DistinctPrices(LevelsOf(side))
      requires levels != [] && price == levels[0].price && OnLots(levels[0].orders, venue.spec.lotSize)
      modifies this`bids, this`asks, this`nodes, this`index, this`book, store.Repr()
      ensures Consistent()
      ensures one == SweepLevel(venue.policy, venue.spec.lotSize, levels[0], taker, now)
      ensures remaining == one.remaining && trades == one.trades && cancelled == IdsOf(one.removed)
      ensures drained <==> one.orders == []
      ensures book == before.WithLevels(side, if drained then levels[1..]
                                              else [PriceLevel(levels[0].price, one.orders)] + levels[1..])
    {
      hide Stored, Owns, Shows, DistinctPrices, Conforming, SweepLevel, OnLots, IdsOf;
      remaining, trades, cancelled, one := SweepBest(side, price, taker, now, before, levels[0]);
      BestEmptied(View(), book, side);
      var level := Head(side);
      drained := level.keys == [];
      if drained {
        RemoveBest(side, price, book);
      }
    }

    /** Walk the opposite side and fill the taker against it, best price first. */
    method FillAgainst(taker: Order, limit: Option<Price>, ghost before: Book)
      returns (remaining: nat, trades: seq<Trade>, cancelled: seq<ExchangeId>, ghost swept: SweepResult)
      requires Valid() && Whole(venue, taker) && before == book
      modifies this`bids, this`asks, this`nodes, this`index, this`book, store.Repr()
      ensures Valid()
      ensures swept == SweepOf(venue, before, taker, limit)
      ensures remaining == swept.remaining && trades == swept.trades && cancelled == IdsOf(swept.removed)
      ensures book == before.WithLevels(Opposite(taker.side), swept.levels)
      ensures remaining + Traded(trades) == taker.remaining
      ensures forall k :: 0 <= k < |trades| && limit.Some? ==>
                if taker.side == Bid then trades[k].price <= limit.value else trades[k].price >= limit.value
      ensures remaining > 0 && BookStocked(before) && book.Levels(Opposite(taker.side)) != [] ==>
                var best := book.Levels(Opposite(taker.side))[0].price;
                limit.Some? && if taker.side == Bid then best > limit.value else best < limit.value
    {
      LevelOnLots(venue.spec, Opposite(taker.side), before.nextArrival, before.Levels(Opposite(taker.side)));
      SweptKeeps(venue, before, taker, limit);
      SweptWithin(venue, before, taker, limit);
      hide Stored, WellFormed, Owns, Shows, Conforming, LevelOk, Sweep;
      remaining, trades, cancelled, swept := Walk(taker, limit, nextArrival, before,
                                                  before.Levels(Opposite(taker.side)));
    }

    method Walk(taker: Order, limit: Option<Price>, now: nat, ghost before: Book, ghost start: seq<PriceLevel>)
      returns (remaining: nat, trades: seq<Trade>, cancelled: seq<ExchangeId>, ghost swept: SweepResult)
      requires Consistent() && Whole(venue, taker) && before == book && start == before.Levels(Opposite(taker.side))
      requires SideOk(venue.spec, Opposite(taker.side), before.nextArrival, start)
      requires LevelsOnLots(start, venue.spec.lotSize)
      modifies this`bids, this`asks, this`nodes, this`index, this`book, store.Repr()
      ensures Consistent()
      ensures swept == Sweep(venue.policy, venue.spec.lotSize, start, taker, limit, now)
      ensures remaining == swept.remaining && trades == swept.trades && cancelled == IdsOf(swept.removed)
      ensures book == before.WithLevels(Opposite(taker.side), swept.levels)
    {
      hide Stored, Owns, Shows, DistinctPrices, Conforming, SweepLevel, OnLots, LevelOk, Sweep, IdsOf, Splits;
      var side := Opposite(taker.side);
      ghost var lot, levels := venue.spec.lotSize, start;
      swept := Sweep(venue.policy, lot, levels, taker, limit, now);
      remaining, trades, cancelled := taker.remaining, [], [];
      ghost var removed: seq<Order>, left := [], swept;
      SplitsTrivially(swept);
      var done := false;
      var best := Touch(side);
      while remaining > 0 && !done && best.Some?
        invariant best == if LevelsOf(side) == [] then None else Some(LevelsOf(side)[0])
        invariant Consistent() && book == before.WithLevels(side, levels)
        invariant done ==> left == SweepResult(levels, remaining, [], [])
        invariant !done ==>
                    && SideOk(venue.spec, side, before.nextArrival, levels) && LevelsOnLots(levels, lot)
                    && remaining % lot == 0
                    && left == Sweep(venue.policy, lot, levels, taker.(remaining := remaining), limit, now)
        invariant Splits(swept, left, trades, removed) && cancelled == IdsOf(removed)
        decreases !done, |levels|
      {
        ShownPrices(View(), book, side, venue.spec);
        var current := taker.(remaining := remaining);
        if !Crosses(taker.side, best.value.price, limit) {
          SweepStops(venue.policy, lot, levels, current, limit, now);
          done := true;
        } else {
          SweepUnfolds(venue.policy, lot, levels, current, limit, now);
          var moreTrades, moreCancelled, drained;
          ghost var one, was := SweepLevel(venue.policy, lot, levels[0], current, now), left;
          remaining, moreTrades, moreCancelled, drained, one := 
            PassBest(side, best.value.price, current, now, book, levels);
          if drained {
            SideTail(venue.spec, side, before.nextArrival, levels);
            levels := levels[1..];
            left := Sweep(venue.policy, lot, levels, taker.(remaining := remaining), limit, now);
          } else {
            levels := [PriceLevel(levels[0].price, one.orders)] + levels[1..];
            left := SweepResult(levels, remaining, [], []);
            done := true;
          }
          SplitsOn(swept, was, left, trades, removed, one);
          IdsAppend(removed, one.removed);
          trades, cancelled, removed := trades + moreTrades, cancelled + moreCancelled, removed + one.removed;
          best := Touch(side);
        }
      }
      NothingShown(View(), book, side);
      if !done {
        SweepStops(venue.policy, lot, levels, taker.(remaining := remaining), limit, now);
      }
      SplitsAll(swept, levels, remaining, trades, removed);
    }

    /** How much of the taker the book could fill within the limit, counting up
        to what is needed and touching nothing. */
    method FillableQuantity(side: Side, taker: Order, limit: Price) returns (available: nat)
      requires Valid()
      ensures available >= taker.remaining <==> Reach(book.Levels(side), taker, Some(limit)) >= taker.remaining
      ensures available < taker.remaining ==> available == Reach(book.Levels(side), taker, Some(limit))
    {
      hide Stored, WellFormed, Owns, Reach, Foreign, Quantity, Conforming;
      ghost var shown, bound := book.Levels(side), Some(limit);
      var levels := Listing(side);
      available := 0;
      var i := 0;
      assert shown[0..] == shown;
      while i < |levels|
        invariant i <= |levels| == |shown|
        invariant Reach(shown, taker, bound) == available + Reach(shown[i..], taker, bound)
      {
        assert LevelShows(levels[i], nodes, shown[i]);
        ReachUnfolds(shown, i, taker, bound);
        if !Crosses(taker.side, levels[i].price, Some(limit)) {
          return;
        }
        ghost var orders, reached := shown[i].orders, available;
        ForeignNone(orders, taker.client);
        var j := 0;
        while j < |levels[i].keys|
          invariant j <= |levels[i].keys| == |orders|
          invariant available == reached + Quantity(Foreign(orders[..j], taker.client))
        {
          var order := nodes[levels[i].keys[j]];
          ForeignExtends(orders, j, taker.client);
          if order.client != taker.client {
            available := available + order.remaining;
            if available >= taker.remaining {
              ForeignPrefix(orders, j + 1, taker.client);
              return;
            }
          }
          j := j + 1;
        }
        assert orders[..|orders|] == orders;
        i := i + 1;
      }
      ReachNowhere(shown, taker, bound);
    }

    // ------------------------------------------------------ adding, cancelling

    /** A fresh node at the back of its queue, filed under its id, unless the
        store has no place for its level. */
    method File(order: Order, ghost before: Book) returns (r: Result<(), BookError>)
      requires Consistent() && before == book && order.kind.Limit? && order.id !in index
      modifies this`bids, this`asks, this`nodes, this`nextKey, this`index, this`nextArrival, this`book, store.Repr()
      ensures Consistent()
      ensures r == if store.Seats(order.kind.price) then Ok(()) else Err(BookError.Storage(PriceOutsideRange))
      ensures book == if r.Ok? then Seated(before, order) else before
      ensures r.Err? ==> View() == old(View()) && nextKey == old(nextKey)
    {
      hide Stored, Owns, Shows, Conforming, Enqueue, Insert, Seated;
      var side, price, key := order.side, order.kind.price, nextKey;
      var stamped := order.(arrival := nextArrival);
      ghost var t := View();
      FiledShows(t, before, key, order);
      var refused := FileKey(side, price, key);
      if refused.Some? {
        return Err(BookError.Storage(refused.value));
      }
      nodes, nextKey := nodes[key := stamped], nextKey + 1;
      index := index[order.id := InBook(side, price, key)];
      nextArrival := nextArrival + 1;
      book := Seated(before, order);
      assert View() == FileNode(t, key, stamped);
      return Ok(());
    }

    /** On a ladder, the order's prices are whole ticks. */
    ghost predicate Gridded(order: Order)
      requires venue.spec.Valid()
    {
      store.Ladder? ==> WholeTicks(venue.spec, order)
    }

    lemma GriddedIsSeated(order: Order)
      requires Stored() && venue.spec.Valid() && Gridded(order)
      requires order.kind.Limit? && Admit(venue.spec, order).Ok?
      ensures store.Seats(order.kind.price)
    {
      assert order.kind.price in order.kind.Prices();
      AdmittedIsSeated(store, venue.spec, order);
    }

    /** Rest an order without matching it. The store refuses a level it cannot
        hold, and then nothing has changed; never one on the tick. */
    method AddOrder(order: Order, ghost before: Book) returns (r: Result<(), BookError>)
      requires Valid() && before == book && Whole(venue, order)
      modifies this`bids, this`asks, this`nodes, this`nextKey, this`index, this`nextArrival, this`book, store.Repr()
      ensures Valid()
      ensures var added := Engine.AddOrder(venue.spec, before, order);
              if added.error.None? && !store.Seats(order.kind.price)
              then r == Err(BookError.Storage(PriceOutsideRange)) && book == before
              else r == Acknowledged(added.error) && book == added.book
      ensures Gridded(order) ==> r == Acknowledged(Engine.AddOrder(venue.spec, before, order).error)
      ensures r.Err? ==> View() == old(View()) && nextKey == old(nextKey) && book == before
    {
      hide Stored, WellFormed, Owns, Shows, LiveIds, Insert, Conforming, Admit;
      IndexIsLive(View(), book);
      AddOrderKeeps(venue.spec, before, order);
      if !order.kind.Limit? {
        return Err(NotRestable);
      }
      var admitted := Admit(venue.spec, order);
      if admitted.Err? {
        return Err(Rejected(admitted.error));
      }
      if order.id in index {
        return Err(ExchangeIdDuplicated);
      }
      if Gridded(order) {
        GriddedIsSeated(order);
      }
      r := File(order, before);
    }

    /** Unlink, free and forget a resting order; its level goes if it drained. */
    method CancelResting(id: ExchangeId, ghost before: Book)
      requires Valid() && before == book && id in index && index[id].InBook?
      modifies this`bids, this`asks, this`nodes, this`index, this`book, store.Repr()
      ensures Consistent() && book == Engine.CancelOrder(before, id).book
    {
      hide Stored, WellFormed, Owns, Shows, Engine.CancelOrder, DropKey, RemoveEmpty, Conforming;
      ghost var t := View();
      CancelRestOwns(t, before, id);
      CancelRestShows(t, before, venue.spec, id);
      CancelCounters(before, id);
      var InBook(side, price, key) := index[id];
      RestKept(t, id);
      DropFrom(side, price, key);
      nodes, index := nodes - {key}, index - {id};
      book := Engine.CancelOrder(before, id).book;
      assert View() == CancelRest(t, id);
    }

    /** Take a parked stop out of its trigger's queue and forget it. */
    method CancelParked(id: ExchangeId, ghost before: Book)
      requires Valid() && before == book && id in index && index[id].InStops?
      modifies this`index, this`stopBids, this`stopAsks, this`book
      ensures Consistent() && book == Engine.CancelOrder(before, id).book
    {
      hide Stored, WellFormed, Owns, Shows, Engine.CancelOrder, Unlink, UnlinkAt, Conforming;
      ghost var t := View();
      CancelStopAgrees(t, before, venue.spec, id);
      CancelCounters(before, id);
      var InStops(side, trigger) := index[id];
      if side == Bid {
        stopBids := UnlinkAt(stopBids, trigger, id);
      } else {
        stopAsks := UnlinkAt(stopAsks, trigger, id);
      }
      index := index - {id};
      book := Engine.CancelOrder(before, id).book;
      assert View() == UnparkStop(t, side, id);
    }

    /** Cancel one live order, resting or parked. */
    method CancelOrder(id: ExchangeId, ghost before: Book) returns (r: Result<(), BookError>)
      requires Valid() && before == book
      modifies this`bids, this`asks, this`nodes, this`index, this`stopBids, this`stopAsks, this`book, store.Repr()
      ensures Valid()
      ensures book == Engine.CancelOrder(before, id).book
      ensures r == Acknowledged(Engine.CancelOrder(before, id).error)
      ensures r.Err? ==> View() == old(View()) && book == before
    {
      hide Stored, WellFormed, Owns, Shows, LiveIds, Unlink, Conforming;
      IndexIsLive(View(), book);
      CancelKeeps(venue.spec, before, id);
      if id !in index {
        return Err(OrderNotFound);
      }
      if index[id].InBook? {
        CancelResting(id, before);
      } else {
        CancelParked(id, before);
      }
      return Ok(());
    }

    /** Look up a live order by id. */
    method GetOrder(id: ExchangeId) returns (found: Option<Order>)
      requires Valid()
      ensures found.Some? <==> id in LiveIds(book)
      ensures found.Some? ==> found.value.id == id && Alive(book, found.value)
    {
      hide Stored, WellFormed, Owns, Shows, LiveIds, Conforming, Alive;
      IndexIsLive(View(), book);
      if id !in index {
        return None;
      }
      match index[id] {
        case InBook(_, _, key) =>
          RestIsAlive(View(), book, id);
          found := Some(nodes[key]);
        case InStops(side, trigger) =>
          StopIsAlive(View(), book, venue.spec, id);
          var at := QueueAt(if side == Bid then stopBids else stopAsks, trigger);
          found := FirstWith(at, id);
      }
    }

    /** How many orders are alive, resting or parked. */
    method OrderCount() returns (n: nat)
      requires Valid()
      ensures n == Parked(book.bids) + Parked(book.asks) + Pending(book)
    {
      hide Stored, WellFormed, Owns, Shows, Conforming, Parked, Pending;
      CountsAgree(View(), book, venue.spec);
      n := |index|;
    }

    // ---------------------------------------------------------------- stops

    /** Park a stop at its trigger, behind whatever is parked there already. */
    method ParkStop(order: Order, ghost before: Book) returns (r: Result<Report, BookError>)
      requires Valid() && before == book
      requires order.kind.IsStop() && Whole(venue, order) && Admit(venue.spec, order).Ok?
      modifies this`stopBids, this`stopAsks, this`index, this`book
      ensures Valid() && book == Engine.Park(before, order).book
      ensures Told(r, Engine.Park(before, order).result)
      ensures r.Ok? ==> Reports.ParkingTold(before, order, r.value, book) && r.value.trades == []
      ensures lastTradePrice == old(lastTradePrice)
    {
      hide Stored, WellFormed, Owns, Shows, LiveIds, Insert, Conforming, Admit, Engine.Park, Reports.ParkingTold;
      Reports.ParkIsTold(before, order);
      IndexIsLive(View(), book);
      ParkKeeps(venue.spec, before, order);
      ParkTells(before, order);
      if order.id in index {
        return Err(ExchangeIdDuplicated);
      }
      ghost var t := View();
      ParkStopOwns(t, order);
      ParkShows(t, before, order);
      index := index[order.id := InStops(order.side, order.kind.trigger)];
      if order.side == Bid {
        stopBids := Insert(true, stopBids, order.kind.trigger, order);
      } else {
        stopAsks := Insert(false, stopAsks, order.kind.trigger, order);
      }
      book := Engine.Park(before, order).book;
      assert View() == Ownership.ParkStop(t, order);
      return Ok(Report(order.id, [], StopPending, [], []));
    }

    /** The next parked stop the last trade price has reached, unparked. */
    method PopTriggeredStop(ghost before: Book) returns (stop: Option<Order>)
      requires Valid() && before == book
      modifies this`stopBids, this`stopAsks, this`index, this`book
      ensures Valid()
      ensures PopTriggered(before).None? ==> stop == None && book == before
      ensures PopTriggered(before).Some? ==>
                stop == Some(PopTriggered(before).value.order) && book == PopTriggered(before).value.book
    {
      hide Stored, WellFormed, Owns, SideShows, PopFront, Conforming, LiveIds, StopIds, Pending, PopTriggered, Unlink;
      NextToFire(venue.spec, before);
      if PopTriggered(before).Some? {
        PopKeeps(venue, before);
      }
      if lastTradePrice.None? {
        return None;
      }
      var last := lastTradePrice.value;
      var side;
      if stopBids != [] && stopBids[0].price <= last {
        side := Bid;
      } else if stopAsks != [] && stopAsks[0].price >= last {
        side := Ask;
      } else {
        return None;
      }
      ghost var t := View();
      PopAgrees(t, before, venue.spec, side);
      var order;
      if side == Bid {
        order, stopBids := stopBids[0].orders[0], PopFront(stopBids);
      } else {
        order, stopAsks := stopAsks[0].orders[0], PopFront(stopAsks);
      }
      index := index - {order.id};
      book := before.WithStops(side, PopFront(before.Stops(side)));
      assert View() == UnparkStop(t, side, order.id);
      return Some(order);
    }

    // ------------------------------------------------------------- execution

    method ProcessLimit(order: Order, limit: Price, tif: TimeInForce, ghost before: Book)
      returns (r: Result<Matching, BookError>, ghost removed: seq<Order>)
      requires Valid() && Whole(venue, order) && Gridded(order) && before == book && tif != FOK
      modifies this`bids, this`asks, this`nodes, this`nextKey, this`index, this`nextArrival, this`book, store.Repr()
      ensures Valid() && Did(Engine.ProcessLimit(venue, before, order, limit, tif), book, order, r, removed)
    {
      hide Stored, WellFormed, Owns, Shows, Conforming, SweepOf, Engine.AddOrder, IdsOf, LiveIds;
      SweptMatched(venue, before, order, Some(limit));
      ghost var swept;
      var remaining, trades, cancelled;
      remaining, trades, cancelled, swept := FillAgainst(order, Some(limit), before);
      removed := swept.removed;
      if remaining == 0 {
        return Ok(Matching(trades, cancelled, Filled)), removed;
      }
      if tif == IOC {
        return Ok(Matching(trades, cancelled, Killed)), removed;
      }
      var outcome := if trades == [] then Rested else PartiallyFilledAndRested;
      ghost var after := book;
      AddOrderKeeps(venue.spec, after, order.(remaining := remaining));
      assert Gridded(order.(remaining := remaining));
      var added := AddOrder(order.(remaining := remaining), after);
      if added.Err? {
        return Err(added.error), removed;
      }
      return Ok(Matching(trades, cancelled, outcome)), removed;
    }

    /** Check before execute: fill completely or touch nothing. */
    method ProcessFok(order: Order, limit: Price, ghost before: Book)
      returns (r: Result<Matching, BookError>, ghost removed: seq<Order>)
      requires Valid() && Whole(venue, order) && before == book
      modifies this`bids, this`asks, this`nodes, this`index, this`book, store.Repr()
      ensures Valid() && Did(Engine.ProcessFok(venue, before, order, limit), book, order, r, removed)
      ensures r.Ok? && r.value.outcome == Killed ==> View() == old(View()) && book == before
    {
      hide Stored, WellFormed, Owns, Shows, Conforming, SweepOf, IdsOf, Reach, Consistent;
      var available := FillableQuantity(Opposite(order.side), order, limit);
      if available < order.remaining {
        NoIds();
        return Ok(Matching([], [], Killed)), [];
      }
      ghost var swept;
      var remaining, trades, cancelled;
      remaining, trades, cancelled, swept := FillAgainst(order, Some(limit), before);
      return Ok(Matching(trades, cancelled, Filled)), swept.removed;
    }

    /** A market order takes any price; what is left unfilled is discarded. */
    method ProcessMarket(order: Order, ghost before: Book)
      returns (r: Result<Matching, BookError>, ghost removed: seq<Order>)
      requires Valid() && Whole(venue, order) && before == book
      modifies this`bids, this`asks, this`nodes, this`index, this`book, store.Repr()
      ensures Valid() && Did(Engine.ProcessMarket(venue, before, order), book, order, r, removed)
    {
      hide Stored, WellFormed, Owns, Shows, Conforming, SweepOf, IdsOf, Consistent;
      ghost var swept;
      var remaining, trades, cancelled;
      remaining, trades, cancelled, swept := FillAgainst(order, None, before);
      return Ok(Matching(trades, cancelled, if remaining == 0 then Filled else Killed)), swept.removed;
    }

    /** The order's kind decides how it is matched. */
    method MatchOne(order: Order, ghost before: Book)
      returns (r: Result<Matching, BookError>, ghost removed: seq<Order>)
      requires Valid() && Whole(venue, order) && Gridded(order) && before == book && !order.kind.IsStop()
      modifies this`bids, this`asks, this`nodes, this`nextKey, this`index, this`nextArrival, this`book, store.Repr()
      ensures Valid() && Did(Engine.ExecuteNow(venue, before, order), book, order, r, removed)
    {
      hide Stored, WellFormed, Owns, Shows, Conforming, IdsOf, Engine.ProcessLimit, Engine.ProcessFok,
        Engine.ProcessMarket, Did;
      if order.kind.Market? {
        r, removed := ProcessMarket(order, before);
      } else if order.kind.tif == FOK {
        r, removed := ProcessFok(order, order.kind.price, before);
      } else {
        r, removed := ProcessLimit(order, order.kind.price, order.kind.tif, before);
      }
    }

    /** Run one order that is not a stop through matching, and remember the price
        of its last trade. */
    method ExecuteNow(order: Order, ghost before: Book) returns (r: Result<Report, BookError>)
      requires Valid() && Whole(venue, order) && Gridded(order) && before == book && !order.kind.IsStop()
      modifies this`bids, this`asks, this`nodes, this`nextKey, this`index, this`nextArrival
      modifies this`lastTradePrice, this`book, store.Repr()
      ensures Valid() && book == Engine.ExecuteNow(venue, before, order).book
      ensures Told(r, Engine.ExecuteNow(venue, before, order).result)
      ensures r.Ok? ==> Reports.Executed(before, order, r.value, book)
      ensures r.Ok? ==> lastTradePrice == if r.value.trades == [] then old(lastTradePrice)
                                          else Some(r.value.trades[|r.value.trades| - 1].price)
    {
      hide Stored, WellFormed, Owns, Shows, Conforming, IdsOf, Engine.ExecuteNow, Reports.Executed, LiveIds;
      Reports.ExecutionIsTold(venue, before, order);
      var matched;
      ghost var removed;
      matched, removed := MatchOne(order, before);
      if matched.Err? {
        return Err(matched.error);
      }
      var Matching(trades, cancelled, outcome) := matched.value;
      PrintKeeps(View(), venue.spec, book, order, SweepResult([], 0, trades, removed), outcome);
      if trades != [] {
        lastTradePrice := Some(trades[|trades| - 1].price);
      }
      book := Engine.ExecuteNow(venue, before, order).book;
      return Ok(Report(order.id, trades, outcome, cancelled, []));
    }

    /** Run one order through matching; a stop parks unless the market has
        already reached its trigger. */
    method Execute(order: Order, ghost before: Book) returns (r: Result<Report, BookError>)
      requires Valid() && Whole(venue, order) && Gridded(order) && before == book && Admit(venue.spec, order).Ok?
      modifies this, store.Repr()
      ensures Valid() && book == Engine.Execute(venue, before, order).book
      ensures Told(r, Engine.Execute(venue, before, order).result)
      ensures r.Ok? ==> lastTradePrice == if r.value.trades == [] then old(lastTradePrice)
                                          else Some(r.value.trades[|r.value.trades| - 1].price)
    {
      hide Stored, WellFormed, Owns, Shows, Conforming, Admit, Engine.ExecuteNow, Engine.Park;
      if order.kind.IsStop() {
        var reached := lastTradePrice.Some? &&
          if order.side == Bid then lastTradePrice.value >= order.kind.trigger
          else lastTradePrice.value <= order.kind.trigger;
        if reached {
          ActivateGridded(order);
          r := ExecuteNow(Activate(order), before);
        } else {
          r := ParkStop(order, before);
        }
      } else {
        r := ExecuteNow(order, before);
      }
    }

    /** On a ladder, every parked stop's prices are whole ticks. */
    ghost predicate StopsGridded(b: Book)
      requires venue.spec.Valid()
    {
      store.Ladder? ==> StopsOnTick(venue.spec, b)
    }

    lemma ActivateGridded(order: Order)
      requires venue.spec.Valid() && Gridded(order)
      ensures Gridded(Activate(order))
    {
      if store.Ladder? {
        ActivateOnTick(venue.spec, order);
      }
    }

    lemma PopGridded(b: Book)
      requires Ready(venue, b) && StopsGridded(b) && PopTriggered(b).Some?
      ensures Gridded(Activate(PopTriggered(b).value.order)) && StopsGridded(Activated(venue, b).book)
    {
      hide WellFormed, Activated, PopTriggered;
      if store.Ladder? {
        PopOnTick(venue, b);
        ActivatedOnTick(venue, b);
        ActivateGridded(PopTriggered(b).value.order);
      }
    }

    /** Activate every stop the trades so far have set off, one after the other,
        until none is left. */
    method RunTriggered(first: Report, ghost whole: Submission, ghost start: seq<Execution>)
      returns (r: Result<Report, BookError>)
      requires Valid() && StopsGridded(book)
      requires Continues(whole, start, Cascade(venue, book)) && start != [] && first == ReportOf(start)
      modifies this, store.Repr()
      ensures Valid() && book == whole.book && r == Reply(whole)
    {
      hide Stored, WellFormed, Owns, Shows, Conforming, Pending, Activated, PopTriggered, LiveIds, Engine.ExecuteNow,
        Reports.Executed, Gridded, StopsGridded;
      var report := first;
      ghost var log := start;
      while true
        invariant Valid() && StopsGridded(book) && log != []
        invariant Continues(whole, log, Cascade(venue, book))
        invariant report == ReportOf(log)
        decreases Pending(book)
      {
        ghost var parked := book;
        CascadeUnfolds(venue, parked);
        if PopTriggered(parked).Some? {
          PopGridded(parked);
        }
        var stop := PopTriggeredStop(parked);
        if stop.None? {
          break;
        }
        var ran := ExecuteNow(Activate(stop.value), book);
        if ran.Err? {
          return Err(ran.error);
        }
        ghost var execution := Activated(venue, parked).result.value;
        ReportGrows(log, execution);
        log := log + [execution];
        report := report.(triggered := report.triggered + [ran.value]);
      }
      assert log + [] == log;
      return Ok(report);
    }

    /** Submit an order: mint its id, execute it, run the stops it set off. */
    method Submit(order: Order, ghost before: Book) returns (r: Result<Report, BookError>)
      requires Valid() && Whole(venue, order) && before == book
      requires Gridded(order) && StopsGridded(before)
      modifies this, store.Repr()
      ensures Valid() && book == Engine.Submit(venue, before, order).book && StopsGridded(book)
      ensures r == Reply(Engine.Submit(venue, before, order))
      ensures Firing.StopsInTurn(before) ==> Firing.StopsInTurn(book)
      ensures Firing.StopsInTurn(before) && r.Ok? ==> Reports.SubmissionTold(before, order, r.value, book)
      ensures Admit(venue.spec, order).Err? ==> View() == old(View()) && nextKey == old(nextKey) && book == before
    {
      hide Stored, WellFormed, Owns, Shows, Conforming, Admit, Engine.Execute, Engine.Submit, LiveIds, Cascade,
        StopsOnTick, WholeTicks, Firing.StopsInTurn, Reports.SubmissionTold;
      SubmissionTold(before, order);
      SequenceAdvances(venue.spec, before);
      SubmitUnfolds(venue, before, order);
      var admitted := Admit(venue.spec, order);
      if admitted.Err? {
        return Err(Rejected(admitted.error));
      }
      var minted := order.(id := FromSequence(nextSeq));
      SubmitGridded(before, order);
      SequenceShows(View(), before);
      nextSeq := nextSeq + 1;
      book := before.(nextSeq := before.nextSeq + 1);
      ghost var step := Engine.Execute(venue, book, minted);
      var first := Execute(minted, book);
      if first.Err? {
        return Err(first.error);
      }
      r := RunTriggered(first.value, Engine.Submit(venue, before, order), [step.result.value]);
    }

    lemma SubmissionTold(b: Book, order: Order)
      requires Ready(venue, b) && Whole(venue, order)
      ensures Firing.StopsInTurn(b) ==> Firing.StopsInTurn(Engine.Submit(venue, b, order).book)
      ensures Firing.StopsInTurn(b) && Reply(Engine.Submit(venue, b, order)).Ok? ==>
                Reports.SubmissionTold(b, order, Reply(Engine.Submit(venue, b, order)).value,
                                       Engine.Submit(venue, b, order).book)
    {
      hide WellFormed, Engine.Submit, Firing.StopsInTurn, Reports.SubmissionTold;
      if Firing.StopsInTurn(b) {
        Firing.SubmitInTurn(venue, b, order);
        if Engine.Submit(venue, b, order).error.None? {
          Reports.SubmissionIsTold(venue, b, order);
        }
      }
    }

    lemma SubmitGridded(b: Book, order: Order)
      requires Ready(venue, b) && Whole(venue, order) && Gridded(order) && StopsGridded(b)
      ensures StopsGridded(Engine.Submit(venue, b, order).book)
      ensures Admit(venue.spec, order).Ok? ==>
                var advanced, minted := b.(nextSeq := b.nextSeq + 1), order.(id := FromSequence(b.nextSeq));
                && Ready(venue, advanced) && Admit(venue.spec, minted).Ok? && Gridded(minted)
                && StopsGridded(Engine.Execute(venue, advanced, minted).book)
    {
      hide WellFormed, Admit, SideOnTick, Engine.Execute, Engine.Submit, WholeTicks;
      SequenceAdvances(venue.spec, b);
      SubmitUnfolds(venue, b, order);
      if store.Ladder? {
        SubmitOnTick(venue, b, order);
        if Admit(venue.spec, order).Ok? {
          var advanced, minted := b.(nextSeq := b.nextSeq + 1), order.(id := FromSequence(b.nextSeq));
          SameKindOnTick(venue.spec, order, minted);
          ExecuteOnTick(venue, advanced, minted);
        }
      }
    }

    /** One command, and what the caller hears back. */
    method Perform(command: Command, ghost before: Book) returns (response: Response)
      requires Valid() && Legal(venue, command) && before == book
      requires StopsGridded(before) && (command.Cancel? || Gridded(command.order))
      modifies this, store.Repr()
      ensures Valid() && book == Engine.Apply(venue, before, command) && StopsGridded(book)
      ensures response == ResponseTo(venue, before, command)
      ensures Firing.StopsInTurn(before) ==> Firing.StopsInTurn(book)
    {
      hide Stored, WellFormed, Owns, Shows, Conforming, LiveIds, Engine.Apply, Engine.Submit, StopsOnTick, WholeTicks,
        Firing.StopsInTurn, Reports.SubmissionTold;
      if Firing.StopsInTurn(before) {
        Firing.ApplyInTurn(venue, before, command);
      }
      ApplyIs(venue, before, command);
      ApplyGridded(before, command);
      match command {
        case SubmitOrder(order) =>
          var submitted := Submit(order, before);
          return Reported(submitted);
        case SeedOrder(order) =>
          var added := AddOrder(order, before);
          return Done(added);
        case Cancel(id) =>
          var cancelled := CancelOrder(id, before);
          return Done(cancelled);
      }
    }

    lemma ApplyGridded(b: Book, command: Command)
      requires Ready(venue, b) && Legal(venue, command)
      requires StopsGridded(b) && (command.Cancel? || Gridded(command.order))
      ensures StopsGridded(Engine.Apply(venue, b, command))
    {
      hide WellFormed, StopsOnTick, Engine.Apply, WholeTicks;
      if store.Ladder? {
        ApplyOnTick(venue, b, command);
      }
    }

    ghost predicate AllGridded(commands: seq<Command>)
      requires venue.spec.Valid()
    {
      forall i :: 0 <= i < |commands| ==> commands[i].Cancel? || Gridded(commands[i].order)
    }

    /** A run of commands, failed ones included, ends where the abstract run does
        and says what it says; the tables agree all the way. */
    method Replay(commands: seq<Command>, ghost before: Book) returns (responses: seq<Response>)
      requires Valid() && AllLegal(venue, commands) && before == book
      requires StopsGridded(before) && AllGridded(commands)
      modifies this, store.Repr()
      ensures Valid() && book == Engine.Run(venue, before, commands) && StopsGridded(book)
      ensures responses == Responses(venue, before, commands)
      ensures forall id :: id in index <==> id in LiveIds(book)
      ensures Orderly(venue, before) && NoSeeding(commands) ==> Orderly(venue, book)
      ensures Firing.StopsInTurn(before) ==> Firing.StopsInTurn(book)
    {
      hide Stored, WellFormed, Owns, Shows, Conforming, LiveIds, Engine.Apply, StopsGridded, Gridded, Orderly,
        Firing.StopsInTurn;
      assert commands[0..] == commands;
      responses := [];
      for i := 0 to |commands|
        invariant Valid() && StopsGridded(book)
        invariant Engine.Run(venue, book, commands[i..]) == Engine.Run(venue, before, commands)
        invariant responses + Responses(venue, book, commands[i..]) == Responses(venue, before, commands)
      {
        RunUnfolds(venue, book, commands, i);
        var response := Perform(commands[i], book);
        responses := responses + [response];
      }
      assert commands[|commands|..] == [];
      IndexIsLive(View(), book);
      if Orderly(venue, before) && NoSeeding(commands) {
        RunsAreOrderly(venue, before, commands);
      }
      if Firing.StopsInTurn(before) {
        Firing.RunsKeepTurns(venue, before, commands);
      }
    }

    // -------------------------------------------------------------- looking

    /** The orders behind one level's queue, oldest first. */
    method Resolve(level: KeyLevel, ghost shown: PriceLevel) returns (resolved: PriceLevel)
      requires LevelShows(level, nodes, shown)
      ensures resolved == shown
    {
      var orders := [];
      for j := 0 to |level.keys|
        invariant orders == shown.orders[..j]
      {
        orders := orders + [nodes[level.keys[j]]];
      }
      return PriceLevel(level.price, orders);
    }

    /** Active levels on one side, best price first, whatever the store. */
    method Levels(side: Side) returns (levels: seq<PriceLevel>)
      requires Valid()
      ensures levels == book.Levels(side)
    {
      hide WellFormed, Owns, Conforming, LevelShows;
      ghost var shown := book.Levels(side);
      var listed := Listing(side);
      levels := [];
      for i := 0 to |listed|
        invariant levels == shown[..i]
      {
        assert LevelShows(listed[i], nodes, shown[i]);
        var level := Resolve(listed[i], shown[i]);
        levels := levels + [level];
      }
    }

    /** The best level on one side. */
    method BestLevel(side: Side) returns (best: Option<PriceLevel>)
      requires Valid()
      ensures best == if book.Levels(side) == [] then None else Some(book.Levels(side)[0])
    {
      hide WellFormed, Owns, Conforming, LevelShows;
      var touch := Touch(side);
      match touch {
        case None => return None;
        case Some(level) =>
          assert LevelShows(level, nodes, book.Levels(side)[0]);
          var resolved := Resolve(level, book.Levels(side)[0]);
          return Some(resolved);
      }
    }
  }

  /** What a sweep leaves and what it printed are within its limit. */
  lemma SweptWithin(venue: Venue, b: Book, taker: Order, limit: Option<Price>)
    requires Ready(venue, b) && Whole(venue, taker)
    ensures var side, swept := Opposite(taker.side), SweepOf(venue, b, taker, limit);
            && swept.remaining + Traded(swept.trades) == taker.remaining
            && (forall k :: 0 <= k < |swept.trades| ==> Honours(taker.side, swept.trades[k].price, limit))
            && (BookStocked(b) && swept.remaining > 0 && swept.levels != [] ==>
                  limit.Some? && if taker.side == Bid then swept.levels[0].price > limit.value
                                 else swept.levels[0].price < limit.value)
  {
    hide Sweep, LiveIds, Conforming, LevelOk;
    var side, now := Opposite(taker.side), b.nextArrival;
    LevelOnLots(venue.spec, side, now, b.Levels(side));
    Reports.LeftIsUntraded(venue, b, taker, limit);
    TradesWithinLimit(venue.spec, venue.policy, b.Levels(side), taker, limit, now);
    if BookStocked(b) {
      SweepReaches(venue.spec, venue.policy, side, now, b.Levels(side), taker, limit, now);
    }
  }

  /** What matching one order came to, before it is reported. */
  datatype Matching = Matching(trades: seq<Trade>, cancelled: seq<ExchangeId>, outcome: Outcome)

  /** The book has done what `step` says but for remembering the last trade. */
  ghost predicate Did(step: Step, b: Book, order: Order, r: Result<Matching, BookError>, removed: seq<Order>) {
    match r
    case Err(e) => step == Step(b, Result.Err(e))
    case Ok(m) =>
      && m.cancelled == IdsOf(removed)
      && step == Printed(b, order, SweepResult([], 0, m.trades, removed), m.outcome)
  }

  /** The caller is told what happened. */
  ghost predicate Told(r: Result<Report, BookError>, result: Result<Execution, BookError>) {
    match result
    case Err(e) => r == Result.Err(e)
    case Ok(execution) => r == Result.Ok(execution.Flat())
  }

  /** The error, or the first execution's report with those of the triggered
      stops underneath. */
  function Reply(done: Submission): Result<Report, BookError> {
    match done.error
    case Some(e) => Err(e)
    case None => if done.log == [] then Err(Unsupported) else Ok(ReportOf(done.log))
  }

  /** What the caller of one command hears back. */
  datatype Response = Reported(report: Result<Report, BookError>) | Done(ack: Result<(), BookError>)

  ghost function ResponseTo(venue: Venue, b: Book, command: Command): Response
    requires Ready(venue, b) && Legal(venue, command)
  {
    match command
    case SubmitOrder(order) => Reported(Reply(Engine.Submit(venue, b, order)))
    case SeedOrder(order) => Done(Acknowledged(Engine.AddOrder(venue.spec, b, order).error))
    case Cancel(id) => Done(Acknowledged(Engine.CancelOrder(b, id).error))
  }

  /** Everything said over a run. */
  ghost function Responses(venue: Venue, b: Book, commands: seq<Command>): seq<Response>
    requires Ready(venue, b) && AllLegal(venue, commands)
    decreases |commands|
  {
    if commands == [] then []
    else
      ApplyKeeps(venue, b, commands[0]);
      [ResponseTo(venue, b, commands[0])] + Responses(venue, Apply(venue, b, commands[0]), commands[1..])
  }

  lemma ReportGrows(log: seq<Execution>, execution: Execution)
    requires log != []
    ensures ReportOf(log + [execution]) == ReportOf(log).(triggered := ReportOf(log).triggered + [execution.Flat()])
  {}

  lemma SequenceShows(t: Tables, b: Book)
    requires Shows(t, b)
    ensures Shows(t, b.(nextSeq := b.nextSeq + 1))
  {}

  lemma RunUnfolds(venue: Venue, b: Book, commands: seq<Command>, i: nat)
    requires Ready(venue, b) && AllLegal(venue, commands) && i < |commands|
    ensures Legal(venue, commands[i]) && Ready(venue, Apply(venue, b, commands[i]))
    ensures Engine.Run(venue, b, commands[i..]) == Engine.Run(venue, Apply(venue, b, commands[i]), commands[i + 1..])
    ensures Responses(venue, b, commands[i..]) ==
            [ResponseTo(venue, b, commands[i])] + Responses(venue, Apply(venue, b, commands[i]), commands[i + 1..])
  {
    hide WellFormed, Apply, ResponseTo;
    ApplyKeeps(venue, b, commands[i]);
    assert commands[i..][0] == commands[i] && commands[i..][1..] == commands[i + 1..];
  }

  lemma ApplyIs(venue: Venue, b: Book, command: Command)
    requires Ready(venue, b) && Legal(venue, command)
    ensures Apply(venue, b, command) ==
            match command
            case SubmitOrder(order) => Engine.Submit(venue, b, order).book
            case SeedOrder(order) => Engine.AddOrder(venue.spec, b, order).book
            case Cancel(id) => Engine.CancelOrder(b, id).book
  {
    hide WellFormed;
  }

  lemma NoIds()
    ensures IdsOf([]) == []
  {}

  lemma ParkShows(t: Tables, b: Book, order: Order)
    requires Shows(t, b) && order.kind.IsStop() && order.id !in LiveIds(b)
    ensures Shows(Ownership.ParkStop(t, order), Engine.Park(b, order).book)
  {
    hide LiveIds, Insert, SideShows;
  }

  lemma ParkTells(b: Book, order: Order)
    requires order.kind.IsStop()
    ensures order.id in LiveIds(b) ==> Engine.Park(b, order) == Step(b, Err(ExchangeIdDuplicated))
    ensures order.id !in LiveIds(b) ==>
              Told(Ok(Report(order.id, [], StopPending, [], [])), Engine.Park(b, order).result)
    ensures var after := Engine.Park(b, order).book;
            after.last == b.last && after.nextSeq == b.nextSeq && after.nextArrival == b.nextArrival
  {
    hide LiveIds, Insert;
  }

  /** Which stop fires next, said of the stop books' first triggers. */
  lemma NextToFire(spec: InstrumentSpec, b: Book)
    requires spec.lotSize > 0 && WellFormed(spec, b)
    ensures b.stopBids != [] ==> b.stopBids[0].orders != []
    ensures b.stopAsks != [] ==> b.stopAsks[0].orders != []
    ensures b.last.None? ==> PopTriggered(b).None?
    ensures b.last.Some? && b.stopBids != [] && b.stopBids[0].price <= b.last.value ==>
              PopTriggered(b) == Some(Popped(b.stopBids[0].orders[0], b.WithStops(Bid, PopFront(b.stopBids))))
    ensures b.last.Some? && (b.stopBids == [] || b.stopBids[0].price > b.last.value) ==>
              PopTriggered(b) ==
              if b.stopAsks != [] && b.stopAsks[0].price >= b.last.value
              then Some(Popped(b.stopAsks[0].orders[0], b.WithStops(Ask, PopFront(b.stopAsks)))) else None
  {
    HeadsHold(spec, b);
    hide WellFormed, PopFront;
  }

  lemma PrintKeeps(t: Tables, spec: InstrumentSpec, b: Book, order: Order, swept: SweepResult, outcome: Outcome)
    requires Shows(t, b) && spec.lotSize > 0 && WellFormed(spec, b)
    ensures Shows(t, Printed(b, order, swept, outcome).book) && WellFormed(spec, Printed(b, order, swept, outcome).book)
  {}

  /** What the caller is told. */
  function Acknowledged(error: Option<BookError>): Result<(), BookError> {
    match error
    case Some(e) => Err(e)
    case None => Ok(())
  }

  /** The abstract book with one more order, stamped, at the back of its queue. */
  function Seated(b: Book, order: Order): Book
    requires order.kind.Limit?
  {
    b.WithLevels(order.side, Insert(RestsAscending(order.side), b.Levels(order.side), order.kind.price,
                                    order.(arrival := b.nextArrival)))
     .(nextArrival := b.nextArrival + 1)
  }

  lemma CancelCounters(b: Book, id: ExchangeId)
    ensures var after := Engine.CancelOrder(b, id).book;
            after.last == b.last && after.nextSeq == b.nextSeq && after.nextArrival == b.nextArrival
  {
    hide LiveIds, Unlink;
  }

  /** The order rests or is parked in the book. */
  ghost predicate Alive(b: Book, order: Order) {
    || (exists side, i, j ::
          0 <= i < |b.Levels(side)| && 0 <= j < |b.Levels(side)[i].orders| && b.Levels(side)[i].orders[j] == order)
    || (exists side, i, j ::
          0 <= i < |b.Stops(side)| && 0 <= j < |b.Stops(side)[i].orders| && b.Stops(side)[i].orders[j] == order)
  }

  lemma RestIsAlive(t: Tables, b: Book, id: ExchangeId)
    requires Owns(t) && Shows(t, b) && id in t.index && t.index[id].InBook?
    ensures t.index[id].key in t.nodes && t.nodes[t.index[id].key].id == id
    ensures Alive(b, t.nodes[t.index[id].key])
  {
    hide SidePlaced, StopsIndexed;
    var InBook(side, price, key) := t.index[id];
    assert EntryTrue(t, id);
    assert NodeOwned(t, key);
    var i :| 0 <= i < |t.Levels(side)| && t.Levels(side)[i].price == price && key in t.Levels(side)[i].keys;
    assert LevelShows(t.Levels(side)[i], t.nodes, b.Levels(side)[i]);
    var j :| 0 <= j < |t.Levels(side)[i].keys| && t.Levels(side)[i].keys[j] == key;
    assert b.Levels(side)[i].orders[j] == t.nodes[key];
  }

  lemma RestKept(t: Tables, id: ExchangeId)
    requires Owns(t) && id in t.index && t.index[id].InBook?
    ensures t.index[id].price in ShelfOf(t.Levels(t.index[id].side))
  {
    hide SidePlaced, StopsIndexed;
    var InBook(side, price, key) := t.index[id];
    assert EntryTrue(t, id);
    assert NodeOwned(t, key);
    ShelfListed(t.Levels(side));
    var i :| 0 <= i < |t.Levels(side)| && t.Levels(side)[i].price == price && key in t.Levels(side)[i].keys;
  }

  /** The orders parked at one trigger. */
  function QueueAt(stops: seq<PriceLevel>, trigger: Price): seq<Order> {
    if stops == [] then [] else if stops[0].price == trigger then stops[0].orders else QueueAt(stops[1..], trigger)
  }

  function FirstWith(orders: seq<Order>, id: ExchangeId): Option<Order> {
    if orders == [] then None else if orders[0].id == id then Some(orders[0]) else FirstWith(orders[1..], id)
  }

  lemma {:induction false} QueueAtIs(stops: seq<PriceLevel>, i: nat)
    requires i < |stops| && forall p, q :: 0 <= p < q < |stops| ==> stops[p].price != stops[q].price
    ensures QueueAt(stops, stops[i].price) == stops[i].orders
  {
    if i > 0 {
      QueueAtIs(stops[1..], i - 1);
    }
  }

  lemma {:induction false} FirstWithFinds(orders: seq<Order>, j: nat)
    requires j < |orders|
    ensures var found := FirstWith(orders, orders[j].id);
            found.Some? && found.value.id == orders[j].id && found.value in orders
  {
    if orders[0].id != orders[j].id {
      FirstWithFinds(orders[1..], j - 1);
    }
  }

  lemma StopIsAlive(t: Tables, b: Book, spec: InstrumentSpec, id: ExchangeId)
    requires Owns(t) && Shows(t, b) && spec.lotSize > 0 && WellFormed(spec, b)
    requires id in t.index && t.index[id].InStops?
    ensures var found := FirstWith(QueueAt(t.Stops(t.index[id].side), t.index[id].trigger), id);
            found.Some? && found.value.id == id && Alive(b, found.value)
  {
    hide SideShows, SidePlaced, NodesOwned, StopsIndexed, IndexTrue, IdBag, WellFormed, Alive, FirstWith, QueueAt;
    var i := StopIsThere(t, id);
    ParkedIsFound(spec, b, t.index[id].side, i, id);
  }

  lemma ParkedIsFound(spec: InstrumentSpec, b: Book, side: Side, i: nat, id: ExchangeId)
    requires spec.lotSize > 0 && WellFormed(spec, b)
    requires i < |b.Stops(side)| && id in IdBag(b.Stops(side)[i].orders)
    ensures var found := FirstWith(QueueAt(b.Stops(side), b.Stops(side)[i].price), id);
            found.Some? && found.value.id == id && Alive(b, found.value)
  {
    StopFacts(spec, side, b.Stops(side));
    hide WellFormed, IdBag, Alive, FirstWith, QueueAt;
    QueueAtIs(b.Stops(side), i);
    var j := CountedAt(b.Stops(side)[i].orders, id);
    FirstWithFinds(b.Stops(side)[i].orders, j);
    ParkedIsAlive(b, side, i, FirstWith(b.Stops(side)[i].orders, id).value);
  }

  lemma ParkedIsAlive(b: Book, side: Side, i: nat, order: Order)
    requires i < |b.Stops(side)| && order in b.Stops(side)[i].orders
    ensures Alive(b, order)
  {
    var k :| 0 <= k < |b.Stops(side)[i].orders| && b.Stops(side)[i].orders[k] == order;
  }

  lemma ReachUnfolds(levels: seq<PriceLevel>, i: nat, taker: Order, limit: Option<Price>)
    requires i < |levels|
    ensures Reach(levels[i..], taker, limit) ==
            if !Crosses(taker.side, levels[i].price, limit) then 0
            else Quantity(Foreign(levels[i].orders, taker.client)) + Reach(levels[i + 1..], taker, limit)
    ensures Quantity(Foreign(levels[i].orders, taker.client)) >= 0 && Reach(levels[i + 1..], taker, limit) >= 0
  {
    assert levels[i..][0] == levels[i] && levels[i..][1..] == levels[i + 1..];
  }

  lemma ReachNowhere(levels: seq<PriceLevel>, taker: Order, limit: Option<Price>)
    ensures Reach(levels[|levels|..], taker, limit) == 0
  {}

  lemma ForeignNone(orders: seq<Order>, client: ClientId)
    ensures Quantity(Foreign(orders[..0], client)) == 0
  {}

  lemma ForeignExtends(orders: seq<Order>, j: nat, client: ClientId)
    requires j < |orders|
    ensures Foreign(orders[..j + 1], client) ==
            if orders[j].client == client then Foreign(orders[..j], client)
            else Foreign(orders[..j], client) + [orders[j]]
    ensures Quantity(Foreign(orders[..j + 1], client)) ==
            Quantity(Foreign(orders[..j], client)) + if orders[j].client == client then 0 else orders[j].remaining
  {
    assert orders[..j + 1][..j] == orders[..j];
    var front := Foreign(orders[..j], client);
    assert (front + [orders[j]])[..|front|] == front;
  }

  lemma {:induction false} ForeignPrefix(orders: seq<Order>, j: nat, client: ClientId)
    requires j <= |orders|
    ensures Quantity(Foreign(orders[..j], client)) <= Quantity(Foreign(orders, client))
    decreases |orders| - j
  {
    if j < |orders| {
      ForeignExtends(orders, j, client);
      ForeignPrefix(orders, j + 1, client);
    } else {
      assert orders[..j] == orders;
    }
  }

  lemma FiledShows(t: Tables, b: Book, key: Key, order: Order)
    requires Owns(t) && Shows(t, b) && key !in t.nodes && order.kind.Limit? && order.id !in t.index
    ensures Owns(FileNode(t, key, order.(arrival := b.nextArrival)))
    ensures Shows(FileNode(t, key, order.(arrival := b.nextArrival)), Seated(b, order))
    ensures Seated(b, order).last == b.last && Seated(b, order).nextSeq == b.nextSeq
    ensures Seated(b, order).nextArrival == b.nextArrival + 1
  {
    var stamped := order.(arrival := b.nextArrival);
    FileNodeOwns(t, key, stamped);
    hide Owns, SideShows;
    EnqueueShows(t.nodes, RestsAscending(stamped.side), t.Levels(stamped.side), b.Levels(stamped.side),
                 stamped.kind.price, key, stamped);
    MoreShows(t.nodes, t.Levels(Opposite(stamped.side)), b.Levels(Opposite(stamped.side)), key, stamped);
  }

  lemma DrainedHead(t: Tables, b: Book, side: Side)
    requires Owns(t) && Shows(t, b) && b.Levels(side) != [] && b.Levels(side)[0].orders == []
    ensures t.Levels(side) != [] && t.Levels(side)[0].price == b.Levels(side)[0].price
    ensures Owns(t.WithLevels(side, t.Levels(side)[1..]))
    ensures Shows(t.WithLevels(side, t.Levels(side)[1..]), b.WithLevels(side, b.Levels(side)[1..]))
  {
    hide Owns;
    assert LevelShows(t.Levels(side)[0], t.nodes, b.Levels(side)[0]);
    RemoveEmptyOwns(t, side, t.Levels(side)[0].price);
    TailShows(t.Levels(side), t.nodes, b.Levels(side));
  }

  /** The physical level prices are the abstract ones, hence distinct. */
  lemma ShownPrices(t: Tables, b: Book, side: Side, spec: InstrumentSpec)
    requires Shows(t, b) && Sorted(RestsAscending(side), b.Levels(side))
    ensures |t.Levels(side)| == |b.Levels(side)| && DistinctPrices(t.Levels(side))
    ensures t.Levels(side) != [] ==> t.Levels(side)[0].price == b.Levels(side)[0].price
  {
    forall i | 0 <= i < |t.Levels(side)|
      ensures t.Levels(side)[i].price == b.Levels(side)[i].price
    {
      assert LevelShows(t.Levels(side)[i], t.nodes, b.Levels(side)[i]);
    }
  }

  lemma BestEmptied(t: Tables, b: Book, side: Side)
    requires Shows(t, b) && b.Levels(side) != []
    ensures t.Levels(side) != [] && (t.Levels(side)[0].keys == [] <==> b.Levels(side)[0].orders == [])
  {
    assert LevelShows(t.Levels(side)[0], t.nodes, b.Levels(side)[0]);
  }

  lemma NothingShown(t: Tables, b: Book, side: Side)
    requires Shows(t, b)
    ensures t.Levels(side) == [] <==> b.Levels(side) == []
  {}

  /** A sweep so far, and what is left of it. */
  ghost predicate Splits(whole: SweepResult, left: SweepResult, trades: seq<Trade>, removed: seq<Order>) {
    whole == SweepResult(left.levels, left.remaining, trades + left.trades, removed + left.removed)
  }

  lemma SplitsTrivially(whole: SweepResult)
    ensures Splits(whole, whole, [], []) && IdsOf([]) == []
  {}

  lemma SplitsOn(whole: SweepResult, was: SweepResult, left: SweepResult, trades: seq<Trade>, removed: seq<Order>,
                 one: LevelSweep)
    requires Splits(whole, was, trades, removed)
    requires was == SweepResult(left.levels, left.remaining, one.trades + left.trades, one.removed + left.removed)
    ensures Splits(whole, left, trades + one.trades, removed + one.removed)
  {
    assert trades + (one.trades + left.trades) == trades + one.trades + left.trades;
    assert removed + (one.removed + left.removed) == removed + one.removed + left.removed;
  }

  lemma SplitsAll(whole: SweepResult, levels: seq<PriceLevel>, remaining: nat, trades: seq<Trade>, removed: seq<Order>)
    requires Splits(whole, SweepResult(levels, remaining, [], []), trades, removed)
    ensures whole == SweepResult(levels, remaining, trades, removed)
  {
    assert trades + [] == trades && removed + [] == removed;
  }

  lemma IdsAppend(a: seq<Order>, b: seq<Order>)
    ensures IdsOf(a + b) == IdsOf(a) + IdsOf(b)
  {}

  lemma SweepStops(policy: Policy, lot: nat, levels: seq<PriceLevel>, taker: Order, limit: Option<Price>, now: nat)
    requires lot > 0 && Conforming(policy, lot) && LevelsOnLots(levels, lot) && taker.remaining % lot == 0
    requires taker.remaining == 0 || levels == [] || !Crosses(taker.side, levels[0].price, limit)
    ensures Sweep(policy, lot, levels, taker, limit, now) == SweepResult(levels, taker.remaining, [], [])
  {}

  lemma SweepUnfolds(policy: Policy, lot: nat, levels: seq<PriceLevel>, taker: Order, limit: Option<Price>, now: nat)
    requires lot > 0 && Conforming(policy, lot) && LevelsOnLots(levels, lot) && taker.remaining % lot == 0
    requires taker.remaining > 0 && levels != [] && Crosses(taker.side, levels[0].price, limit)
    ensures OnLots(levels[0].orders, lot) && LevelsOnLots(levels[1..], lot)
    ensures var one := SweepLevel(policy, lot, levels[0], taker, now);
            && one.remaining % lot == 0
            && Sweep(policy, lot, levels, taker, limit, now) ==
               if one.orders == [] then
                 var rest := Sweep(policy, lot, levels[1..], taker.(remaining := one.remaining), limit, now);
                 SweepResult(rest.levels, rest.remaining, one.trades + rest.trades, one.removed + rest.removed)
               else SweepResult([PriceLevel(levels[0].price, one.orders)] + levels[1..], one.remaining,
                                one.trades + [], one.removed + [])
  {
    SweptOnLots(policy, lot, levels[0], taker, now);
    var one := SweepLevel(policy, lot, levels[0], taker, now);
    assert one.trades + [] == one.trades && one.removed + [] == one.removed;
  }

  /** What one level's sweep comes to, given what the policy decided. */
  lemma SweepLevelIs(policy: Policy, lot: nat, level: PriceLevel, taker: Order, now: nat, fills: seq<Fill>)
    requires lot > 0 && Conforming(policy, lot) && OnLots(level.orders, lot) && taker.remaining % lot == 0
    requires fills == policy(taker.remaining, MakersOf(Foreign(level.orders, taker.client)), now)
    ensures var foreign := Foreign(level.orders, taker.client);
            && (forall j :: 0 <= j < |foreign| ==> Shares(fills, |foreign|)[j] <= foreign[j].remaining)
            && (forall k :: 0 <= k < |fills| ==> fills[k].index < |foreign|)
            && Sum(Quantities(fills)) <= taker.remaining
            && SweepLevel(policy, lot, level, taker, now) ==
               LevelSweep(Settle(foreign, Shares(fills, |foreign|)), taker.remaining - Sum(Quantities(fills)),
                          TradesOf(level.price, foreign, fills, taker), Own(level.orders, taker.client))
  {
    ForeignOnLots(level.orders, taker.client, lot);
    PolicyApplied(policy, lot, taker.remaining, Foreign(level.orders, taker.client), now);
  }

  lemma HeadShown(t: Tables, b: Book, side: Side)
    requires Shows(t, b) && t.Levels(side) != []
    ensures b.Levels(side) != []
    ensures b.Levels(side)[0].price == t.Levels(side)[0].price
    ensures Resolves(t.Levels(side)[0].keys, t.nodes, b.Levels(side)[0].orders)
  {
    assert LevelShows(t.Levels(side)[0], t.nodes, b.Levels(side)[0]);
  }

  lemma HeadStays(t: Tables, after: Tables, side: Side)
    requires HeadOnly(t, after, side)
    ensures after.Levels(side) != [] && after.Levels(side)[0].price == t.Levels(side)[0].price
    ensures forall key :: key in after.nodes ==> key in t.nodes
  {}

  lemma FillsFit(available: nat, orders: seq<Order>, fills: seq<Fill>, lot: nat)
    requires lot > 0 && Contract(available, MakersOf(orders), fills, lot)
    ensures Increasing(fills) && Sum(Quantities(fills)) <= available
    ensures forall k :: 0 <= k < |fills| ==>
              fills[k].index < |orders| && 0 < fills[k].quantity <= orders[fills[k].index].remaining
  {}

  /** The nodes behind the queue once the fills have been applied. */
  ghost predicate Paid(queue: seq<Key>, nodes: map<Key, Order>, orders: seq<Order>, fills: seq<Fill>) {
    && |queue| == |orders|
    && forall j :: 0 <= j < |queue| ==>
         && queue[j] in nodes
         && ShareOf(fills, j) <= orders[j].remaining
         && nodes[queue[j]] == orders[j].(remaining := orders[j].remaining - ShareOf(fills, j))
  }

  /** The best level once its exhausted makers have been unlinked. */
  ghost predicate Settled(levels: seq<KeyLevel>, nodes: map<Key, Order>, orders: seq<Order>, fills: seq<Fill>) {
    && levels != []
    && (forall j :: 0 <= j < |orders| ==> Shares(fills, |orders|)[j] <= orders[j].remaining)
    && Resolves(levels[0].keys, nodes, Settle(orders, Shares(fills, |orders|)))
  }

  lemma PaidNothing(queue: seq<Key>, nodes: map<Key, Order>, orders: seq<Order>)
    requires Resolves(queue, nodes, orders)
    ensures Paid(queue, nodes, orders, [])
  {}

  lemma NothingApplied(price: Price, orders: seq<Order>, fills: seq<Fill>, taker: Order)
    ensures fills[..0] == [] && Sum(Quantities(fills)[..0]) == 0 && TradesOf(price, orders, fills[..0], taker) == []
  {}

  /** One fill, applied to its maker and nobody else. */
  lemma PaidOnce(queue: seq<Key>, nodes: map<Key, Order>, orders: seq<Order>, fills: seq<Fill>, n: nat)
    requires n < |fills| && Paid(queue, nodes, orders, fills[..n])
    requires forall i, j :: 0 <= i < j < |queue| ==> queue[i] != queue[j]
    requires fills[n].index < |orders| && fills[n].quantity <= orders[fills[n].index].remaining
    requires ShareOf(fills[..n], fills[n].index) == 0
    requires forall j: nat ::
               ShareOf(fills[..n + 1], j) == if fills[n].index == j then fills[n].quantity else ShareOf(fills[..n], j)
    ensures var key := queue[fills[n].index];
            && key in nodes && nodes[key] == orders[fills[n].index]
            && Paid(queue, nodes[key := nodes[key].(remaining := nodes[key].remaining - fills[n].quantity)], orders,
                    fills[..n + 1])
  {}

  lemma FillStep(fills: seq<Fill>, n: nat, available: nat)
    requires Increasing(fills) && n < |fills| && Sum(Quantities(fills)) <= available
    ensures ShareOf(fills[..n], fills[n].index) == 0
    ensures forall j: nat ::
               ShareOf(fills[..n + 1], j) == if fills[n].index == j then fills[n].quantity else ShareOf(fills[..n], j)
    ensures Sum(Quantities(fills)[..n + 1]) == Sum(Quantities(fills)[..n]) + fills[n].quantity <= available
  {
    assert fills[..n + 1][..n] == fills[..n];
    ShareOfAbsent(fills[..n], fills[n].index);
    SumExtends(Quantities(fills), n);
    SumMonotonePrefix(Quantities(fills), n + 1, |fills|);
    assert Quantities(fills)[..|fills|] == Quantities(fills);
  }

  /** One fill off the list: its maker is written down, the taker too. */
  lemma FillApplied(queue: seq<Key>, nodes: map<Key, Order>, orders: seq<Order>, fills: seq<Fill>, n: nat,
                    available: nat)
    requires Increasing(fills) && n < |fills| && Sum(Quantities(fills)) <= available
    requires Paid(queue, nodes, orders, fills[..n])
    requires forall i, j :: 0 <= i < j < |queue| ==> queue[i] != queue[j]
    requires fills[n].index < |orders| && fills[n].quantity <= orders[fills[n].index].remaining
    ensures fills[n].index < |queue|
    ensures var key := queue[fills[n].index];
            && key in nodes && nodes[key] == orders[fills[n].index]
            && Paid(queue, nodes[key := nodes[key].(remaining := nodes[key].remaining - fills[n].quantity)], orders,
                    fills[..n + 1])
    ensures Sum(Quantities(fills)[..n + 1]) == Sum(Quantities(fills)[..n]) + fills[n].quantity <= available
  {
    hide Increasing, Quantities, ShareOf;
    FillStep(fills, n, available);
    PaidOnce(queue, nodes, orders, fills, n);
  }

  lemma TradesExtend(price: Price, orders: seq<Order>, fills: seq<Fill>, n: nat, taker: Order)
    requires n < |fills| && forall k :: 0 <= k < |fills| ==> fills[k].index < |orders|
    ensures TradesOf(price, orders, fills[..n + 1], taker) ==
            TradesOf(price, orders, fills[..n], taker) +
            [Trade(price, fills[n].quantity, orders[fills[n].index].id, taker.id,
                   orders[fills[n].index].client, taker.client, taker.side, taker.timestamp)]
  {}

  lemma FillHead(t: Tables, mid: Tables, side: Side, key: Key, remaining: nat)
    requires HeadOnly(t, mid, side) && Owns(mid)
    requires key in mid.nodes && key in mid.Levels(side)[0].keys
    ensures Owns(Refilled(mid, key, remaining)) && HeadOnly(t, Refilled(mid, key, remaining), side)
  {
    hide Owns;
    FillOwns(mid, key, remaining);
    HeadOnlyRefilled(mid, side, key, remaining);
    HeadOnlyChains(t, mid, Refilled(mid, key, remaining), side);
  }

  lemma HeadOnlyRefilled(t: Tables, side: Side, key: Key, remaining: nat)
    requires t.Levels(side) != [] && key in t.nodes && key in t.Levels(side)[0].keys
    ensures HeadOnly(t, Refilled(t, key, remaining), side)
  {}

  /** Every fill's maker is in the queue and alive. */
  ghost predicate Reached(queue: seq<Key>, nodes: map<Key, Order>, fills: seq<Fill>) {
    forall k :: 0 <= k < |fills| ==> fills[k].index < |queue| && queue[fills[k].index] in nodes
  }

  lemma PaidThere(queue: seq<Key>, nodes: map<Key, Order>, orders: seq<Order>, fills: seq<Fill>)
    requires Paid(queue, nodes, orders, fills)
    requires forall k :: 0 <= k < |fills| ==> fills[k].index < |orders|
    ensures Reached(queue, nodes, fills)
  {}

  /** The makers among the first `n` filled that have nothing left. */
  ghost function Spent(queue: seq<Key>, nodes: map<Key, Order>, fills: seq<Fill>, n: nat): set<Key>
    requires Reached(queue, nodes, fills) && n <= |fills|
  {
    set m | 0 <= m < n && nodes[queue[fills[m].index]].remaining == 0 :: queue[fills[m].index]
  }

  lemma NothingSpent(queue: seq<Key>, nodes: map<Key, Order>, fills: seq<Fill>)
    requires Reached(queue, nodes, fills)
    ensures Spent(queue, nodes, fills, 0) == {}
  {}

  lemma SpentExtends(queue: seq<Key>, nodes: map<Key, Order>, fills: seq<Fill>, n: nat)
    requires Reached(queue, nodes, fills) && n < |fills| && Increasing(fills)
    requires forall i, j :: 0 <= i < j < |queue| ==> queue[i] != queue[j]
    ensures var key := queue[fills[n].index];
            && key !in Spent(queue, nodes, fills, n)
            && Spent(queue, nodes, fills, n + 1) ==
               Spent(queue, nodes, fills, n) + if nodes[key].remaining == 0 then {key} else {}
  {
    forall m | 0 <= m < n
      ensures queue[fills[m].index] != queue[fills[n].index]
    {
      assert fills[m].index < fills[n].index;
    }
  }

  /** Which makers the fills exhausted. */
  ghost predicate Exhausted(orders: seq<Order>, fills: seq<Fill>, j: nat)
    requires j < |orders|
  {
    ShareOf(fills, j) > 0 && ShareOf(fills, j) == orders[j].remaining
  }

  lemma TouchedMaker(orders: seq<Order>, fills: seq<Fill>, j: nat)
    requires Increasing(fills) && j < |orders|
    requires forall k :: 0 <= k < |fills| ==> fills[k].quantity > 0
    ensures ShareOf(fills, j) > 0 <==> exists k :: 0 <= k < |fills| && fills[k].index == j
  {
    ShareOfCases(fills, j);
    if k :| 0 <= k < |fills| && fills[k].index == j {
      ShareOfPresent(fills, k);
    }
  }

  lemma DeadAreExhausted(queue: seq<Key>, orders: seq<Order>, fills: seq<Fill>, nodes: map<Key, Order>, dead: set<Key>,
                         j: nat)
    requires |queue| == |orders| && Increasing(fills) && j < |queue|
    requires forall i, j :: 0 <= i < j < |queue| ==> queue[i] != queue[j]
    requires forall k :: 0 <= k < |fills| ==>
               fills[k].index < |orders| && fills[k].quantity > 0 && queue[fills[k].index] in nodes
    requires ShareOf(fills, j) <= orders[j].remaining && queue[j] in nodes
    requires nodes[queue[j]].remaining == orders[j].remaining - ShareOf(fills, j)
    requires Reached(queue, nodes, fills)
    requires dead == Spent(queue, nodes, fills, |fills|)
    ensures queue[j] in dead <==> Exhausted(orders, fills, j)
  {
    TouchedMaker(orders, fills, j);
  }

  lemma SettledQueue(queue: seq<Key>, nodes: map<Key, Order>, orders: seq<Order>, fills: seq<Fill>, dead: set<Key>)
    requires Paid(queue, nodes, orders, fills) && Increasing(fills)
    requires forall i, j :: 0 <= i < j < |queue| ==> queue[i] != queue[j]
    requires forall k :: 0 <= k < |fills| ==> fills[k].index < |orders| && fills[k].quantity > 0
    requires Reached(queue, nodes, fills)
    requires dead == Spent(queue, nodes, fills, |fills|)
    ensures forall j :: 0 <= j < |orders| ==> Shares(fills, |orders|)[j] <= orders[j].remaining
    ensures Resolves(Keep(queue, dead), nodes - dead, Settle(orders, Shares(fills, |orders|)))
  {
    forall j | 0 <= j < |queue|
      ensures queue[j] in dead <==> Exhausted(orders, fills, j)
    {
      DeadAreExhausted(queue, orders, fills, nodes, dead, j);
    }
    SettleResolves(queue, nodes - dead, orders, Shares(fills, |orders|), dead);
  }

  lemma HeadOnlyItself(t: Tables, side: Side)
    requires t.Levels(side) != []
    ensures HeadOnly(t, t, side)
  {}

  lemma HeadOnlyDistinct(t: Tables, after: Tables, side: Side)
    requires HeadOnly(t, after, side) && DistinctPrices(t.Levels(side))
    ensures DistinctPrices(after.Levels(side))
  {
    var levels, before := after.Levels(side), t.Levels(side);
    assert forall i :: 0 < i < |levels| ==> levels[i] == levels[1..][i - 1];
    assert forall i :: 0 < i < |before| ==> before[i] == before[1..][i - 1];
  }

  lemma QueueDistinct(t: Tables, side: Side)
    requires Owns(t) && t.Levels(side) != []
    ensures forall i, j :: 0 <= i < j < |t.Levels(side)[0].keys| ==>
              t.Levels(side)[0].keys[i] != t.Levels(side)[0].keys[j]
  {
    hide NodesOwned, IndexTrue, StopsIndexed;
    assert QueuePlaced(t.nodes, side, t.Levels(side)[0]);
  }

  lemma OwnExtends(orders: seq<Order>, i: nat, client: ClientId)
    requires i < |orders|
    ensures Own(orders[..i + 1], client) ==
            if orders[i].client == client then Own(orders[..i], client) + [orders[i]] else Own(orders[..i], client)
  {
    assert orders[..i + 1][..i] == orders[..i];
  }

  /** The client's own keys among the first `n` of the queue. */
  ghost function OwnKeys(queue: seq<Key>, orders: seq<Order>, client: ClientId, n: nat): set<Key>
    requires n <= |queue| == |orders|
  {
    set j | 0 <= j < n && orders[j].client == client :: queue[j]
  }

  lemma NoOwnYet(queue: seq<Key>, orders: seq<Order>, client: ClientId)
    requires |queue| == |orders|
    ensures OwnKeys(queue, orders, client, 0) == {} && IdsOf(Own(orders[..0], client)) == []
  {}

  lemma OwnKeysExtend(queue: seq<Key>, orders: seq<Order>, client: ClientId, i: nat)
    requires i < |queue| == |orders| && forall i, j :: 0 <= i < j < |queue| ==> queue[i] != queue[j]
    ensures queue[i] !in OwnKeys(queue, orders, client, i)
    ensures OwnKeys(queue, orders, client, i + 1) ==
            OwnKeys(queue, orders, client, i) + if orders[i].client == client then {queue[i]} else {}
  {}

  lemma DeadAreOwn(queue: seq<Key>, orders: seq<Order>, client: ClientId)
    requires |queue| == |orders| && forall i, j :: 0 <= i < j < |queue| ==> queue[i] != queue[j]
    ensures forall j :: 0 <= j < |queue| ==>
              (queue[j] in OwnKeys(queue, orders, client, |queue|) <==> orders[j].client == client)
  {}

  /** What unfiling the front level's key amounts to. */
  lemma DropHead(t: Tables, side: Side, key: Key)
    requires Owns(t) && t.Levels(side) != [] && DistinctPrices(t.Levels(side))
    requires key in t.Levels(side)[0].keys
    ensures Placed(t.nodes, side, t.Levels(side)[0].price, key)
    ensures DropNode(t, key) == Thinned(t, side, key)
    ensures Owns(DropNode(t, key)) && HeadOnly(t, DropNode(t, key), side)
  {
    hide Owns, HeadOnly, DistinctPrices, Keep;
    HeadKeyPlaced(t, side, key);
    DropNodeOwns(t, key);
    DropOnlyHead(t.Levels(side), key);
    HeadThinned(t, side, key);
  }

  /** The tables with one key gone from the front level. */
  function Thinned(t: Tables, side: Side, key: Key): Tables
    requires t.Levels(side) != [] && key in t.nodes
  {
    t.WithLevels(side, [KeyLevel(t.Levels(side)[0].price, Keep(t.Levels(side)[0].keys, {key}))] + t.Levels(side)[1..])
     .(nodes := t.nodes - {key}, index := t.index - {t.nodes[key].id})
  }

  lemma HeadThinned(t: Tables, side: Side, key: Key)
    requires t.Levels(side) != [] && key in t.nodes && key in t.Levels(side)[0].keys
    ensures HeadOnly(t, Thinned(t, side, key), side)
  {
    KeepMembers(t.Levels(side)[0].keys, {key});
    hide Keep;
  }

  lemma HeadKeyPlaced(t: Tables, side: Side, key: Key)
    requires Owns(t) && t.Levels(side) != [] && key in t.Levels(side)[0].keys
    ensures Placed(t.nodes, side, t.Levels(side)[0].price, key)
  {
    hide NodesOwned, IndexTrue, StopsIndexed;
    assert QueuePlaced(t.nodes, side, t.Levels(side)[0]);
  }

  lemma DropOnlyHead(levels: seq<KeyLevel>, key: Key)
    requires levels != [] && DistinctPrices(levels)
    ensures DropKey(levels, levels[0].price, key) ==
            [KeyLevel(levels[0].price, Keep(levels[0].keys, {key}))] + levels[1..]
  {
    var dropped := DropKey(levels, levels[0].price, key);
    forall i | 0 <= i < |levels|
      ensures dropped[i] == ([KeyLevel(levels[0].price, Keep(levels[0].keys, {key}))] + levels[1..])[i]
    {
      assert dropped[i].price == levels[i].price;
    }
  }
}
