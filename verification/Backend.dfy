/** The book as a store's customer: what it does to its two sides, said in
    requests, over whichever of the three stores it was built on. */
module Backends {
  import opened Wrappers
  import opened Instrument
  import opened Orders
  import opened Book
  import opened Ownership
  import opened Storage
  import opened TreeStore
  import opened HashStore
  import opened LadderStore

  // ------------------------------------------- list operations as requests

  function KeysAt(shelf: Shelf, price: Price): seq<Key> {
    if price in shelf then shelf[price] else []
  }

  /** Filing a key is ensuring its level and writing the longer queue. */
  lemma {:induction false} FilingIsRequests(ascending: bool, levels: seq<KeyLevel>, price: Price, key: Key)
    requires SortedKeys(ascending, levels)
    ensures SortedKeys(ascending, Enqueue(ascending, levels, price, key))
    ensures ShelfOf(Enqueue(ascending, levels, price, key)) ==
            ShelfOf(levels)[price := KeysAt(ShelfOf(levels), price) + [key]]
  {
    if levels == [] {
      PlaceShelf(ascending, levels, KeyLevel(price, [key]));
      assert KeysAt(ShelfOf(levels), price) + [key] == [key];
    } else {
      BehindHead(ascending, levels);
      if levels[0].price == price {
        SortedCons(ascending, KeyLevel(price, levels[0].keys + [key]), levels[1..]);
      } else if Before(ascending, price, levels[0].price) {
        assert price !in ShelfOf(levels) && KeysAt(ShelfOf(levels), price) + [key] == [key];
        SortedCons(ascending, KeyLevel(price, [key]), levels);
      } else {
        hide SortedKeys;
        FilingIsRequests(ascending, levels[1..], price, key);
        SortedCons(ascending, levels[0], Enqueue(ascending, levels[1..], price, key));
      }
    }
  }

  /** Dropping a key is writing the shorter queue through its level. */
  lemma {:induction false} DroppingIsARequest(ascending: bool, levels: seq<KeyLevel>, price: Price, key: Key)
    requires SortedKeys(ascending, levels) && price in ShelfOf(levels)
    ensures SortedKeys(ascending, DropKey(levels, price, key))
    ensures ShelfOf(DropKey(levels, price, key)) == ShelfOf(levels)[price := Keep(ShelfOf(levels)[price], {key})]
  {
    BehindHead(ascending, levels);
    DropUnfolds(levels, price, key);
    SortedCons(ascending, levels[0], levels[1..]);
    assert levels == [levels[0]] + levels[1..];
    hide SortedKeys, Keep, DropKey, ShelfOf;
    var rest := DropKey(levels[1..], price, key);
    if levels[0].price == price {
      SamePrices(levels[1..], price, key);
      SortedCons(ascending, KeyLevel(price, Keep(levels[0].keys, {key})), rest);
    } else {
      DroppingIsARequest(ascending, levels[1..], price, key);
      SortedCons(ascending, levels[0], rest);
    }
  }

  lemma DropUnfolds(levels: seq<KeyLevel>, price: Price, key: Key)
    requires levels != []
    ensures DropKey(levels, price, key) ==
            [if levels[0].price == price then KeyLevel(price, Keep(levels[0].keys, {key})) else levels[0]]
            + DropKey(levels[1..], price, key)
  {
    hide Keep;
  }

  lemma SamePrices(levels: seq<KeyLevel>, price: Price, key: Key)
    ensures price !in ShelfOf(levels) ==> DropKey(levels, price, key) == levels
  {
    if price !in ShelfOf(levels) {
      ShelfListed(levels);
      forall i | 0 <= i < |levels|
        ensures DropKey(levels, price, key)[i] == levels[i]
      {
        assert Listed(levels, levels[i].price);
      }
    }
  }

  /** Clearing a drained level is looking at it and removing it. */
  lemma {:induction false} ClearingIsARequest(ascending: bool, levels: seq<KeyLevel>, price: Price)
    requires SortedKeys(ascending, levels)
    ensures RemoveEmpty(levels, price) ==
            if Look(levels, price) == Some(KeyLevel(price, [])) then Remove(levels, price) else levels
  {
    if levels != [] && levels[0].price != price {
      ClearingIsARequest(ascending, levels[1..], price);
      assert levels == [levels[0]] + levels[1..];
    }
  }

  /** Working on the best level is writing through it, or removing it. */
  lemma BestIsRequests(ascending: bool, levels: seq<KeyLevel>, keys: seq<Key>)
    requires SortedKeys(ascending, levels) && levels != []
    ensures [KeyLevel(levels[0].price, keys)] + levels[1..] == Place(ascending, levels, KeyLevel(levels[0].price, keys))
    ensures levels[1..] == Remove(levels, levels[0].price)
  {}

  // -------------------------------------------------- two lists, one store

  /** The book's two sides, each listed best price first. */
  datatype Sides = Sides(bids: seq<KeyLevel>, asks: seq<KeyLevel>) {
    function On(side: Side): seq<KeyLevel> {
      if side == Bid then bids else asks
    }

    function With(side: Side, levels: seq<KeyLevel>): Sides {
      if side == Bid then this.(bids := levels) else this.(asks := levels)
    }
  }

  ghost predicate KeepsSide(shelves: Shelves, sides: Sides, side: Side) {
    SortedKeys(RestsAscending(side), sides.On(side)) && shelves.On(side) == ShelfOf(sides.On(side))
  }

  /** The shelves hold exactly these two listings. */
  ghost predicate Keeps(shelves: Shelves, sides: Sides) {
    KeepsSide(shelves, sides, Bid) && KeepsSide(shelves, sides, Ask)
  }

  /** The best level a store names is the head of the listing. */
  lemma KeepsBest(shelves: Shelves, sides: Sides, side: Side, best: Option<KeyLevel>)
    requires Keeps(shelves, sides) && IsBest(RestsAscending(side), best, shelves.On(side))
    ensures best == if sides.On(side) == [] then None else Some(sides.On(side)[0])
  {
    hide IsBest, SortedKeys, Lists, ShelfOf;
    assert KeepsSide(shelves, sides, side);
    var ascending, levels := RestsAscending(side), sides.On(side);
    SortedLists(ascending, levels);
    FirstIsBest(ascending, levels, ShelfOf(levels));
    BestIsUnique(ascending, best, if levels == [] then None else Some(levels[0]), ShelfOf(levels));
  }

  /** The levels a store lists are the listing. */
  lemma KeepsAll(shelves: Shelves, sides: Sides, side: Side, levels: seq<KeyLevel>)
    requires Keeps(shelves, sides) && Lists(RestsAscending(side), levels, shelves.On(side))
    ensures levels == sides.On(side)
  {
    hide SortedKeys, Lists, ShelfOf;
    assert KeepsSide(shelves, sides, side);
    SortedLists(RestsAscending(side), sides.On(side));
    ListingIsUnique(RestsAscending(side), levels, sides.On(side), ShelfOf(sides.On(side)));
  }

  lemma KeepsChanged(shelves: Shelves, sides: Sides, side: Side, shelf: Shelf, levels: seq<KeyLevel>)
    requires Keeps(shelves, sides)
    requires SortedKeys(RestsAscending(side), levels) && shelf == ShelfOf(levels)
    ensures Keeps(shelves.With(side, shelf), sides.With(side, levels))
  {
    hide SortedKeys, ShelfOf;
  }

  /** Writing through the best level rewrites the head of the listing. */
  lemma KeepsRewritten(shelves: Shelves, sides: Sides, side: Side, keys: seq<Key>)
    requires Keeps(shelves, sides) && sides.On(side) != []
    ensures var level := KeyLevel(sides.On(side)[0].price, keys);
            Keeps(Next(shelves, Requeue(side, level.price, keys)), sides.With(side, [level] + sides.On(side)[1..]))
  {
    hide SortedKeys;
    var ascending, levels := RestsAscending(side), sides.On(side);
    var level := KeyLevel(levels[0].price, keys);
    assert KeepsSide(shelves, sides, side);
    BestIsRequests(ascending, levels, keys);
    PlaceShelf(ascending, levels, level);
    KeepsChanged(shelves, sides, side, ShelfOf(levels)[level.price := keys], [level] + levels[1..]);
  }

  /** Removing the best level drops the head of the listing. */
  lemma KeepsRemoved(shelves: Shelves, sides: Sides, side: Side)
    requires Keeps(shelves, sides) && sides.On(side) != []
    ensures Keeps(Next(shelves, RemoveLevel(side, sides.On(side)[0].price)), sides.With(side, sides.On(side)[1..]))
  {
    hide SortedKeys, ShelfOf;
    var ascending, levels := RestsAscending(side), sides.On(side);
    assert KeepsSide(shelves, sides, side);
    BestIsRequests(ascending, levels, []);
    RemoveShelf(ascending, levels, levels[0].price);
    KeepsChanged(shelves, sides, side, ShelfOf(levels) - {levels[0].price}, levels[1..]);
  }

  /** Ensuring a level and writing the longer queue through it files a key. */
  lemma KeepsFiled(shelves: Shelves, sides: Sides, side: Side, price: Price, key: Key)
    requires Keeps(shelves, sides)
    ensures var made := Next(shelves, EnsureLevel(side, price));
            && price in made.On(side) && made.On(side)[price] == KeysAt(shelves.On(side), price)
            && Keeps(Next(made, Requeue(side, price, made.On(side)[price] + [key])),
                     sides.With(side, Enqueue(RestsAscending(side), sides.On(side), price, key)))
  {
    hide SortedKeys, ShelfOf, Enqueue;
    var ascending, levels := RestsAscending(side), sides.On(side);
    assert KeepsSide(shelves, sides, side);
    FilingIsRequests(ascending, levels, price, key);
    var shelf, keys := ShelfOf(levels), KeysAt(ShelfOf(levels), price) + [key];
    KeepsChanged(shelves, sides, side, shelf[price := keys], Enqueue(ascending, levels, price, key));
    var made: Shelf := shelf[price := []];
    assert made[price := keys] == shelf[price := keys];
  }

  /** Writing the shorter queue, and removing the level if it drained, drops a key. */
  lemma KeepsDropped(shelves: Shelves, sides: Sides, side: Side, price: Price, key: Key)
    requires Keeps(shelves, sides) && price in shelves.On(side)
    ensures var keys := Keep(shelves.On(side)[price], {key});
            var cut := Next(shelves, Requeue(side, price, keys));
            Keeps(if keys == [] then Next(cut, RemoveLevel(side, price)) else cut,
                  sides.With(side, RemoveEmpty(DropKey(sides.On(side), price, key), price)))
  {
    hide SortedKeys, ShelfOf, Keep, DropKey, RemoveEmpty, Remove;
    var ascending, levels := RestsAscending(side), sides.On(side);
    assert KeepsSide(shelves, sides, side);
    var keys := Keep(ShelfOf(levels)[price], {key});
    DroppingIsARequest(ascending, levels, price, key);
    var dropped := DropKey(levels, price, key);
    ClearingIsARequest(ascending, dropped, price);
    LookShelf(ascending, dropped, price);
    RemoveShelf(ascending, dropped, price);
    KeepsChanged(shelves, sides, side, if keys == [] then ShelfOf(dropped) - {price} else ShelfOf(dropped),
                 RemoveEmpty(dropped, price));
  }

  // --------------------------------------------------------- any of the three

  datatype Layout = Ordered | Hashed | Laddered

  datatype Backend = Tree(tree: BTreeStore) | Hash(hash: HashMapStore) | Ladder(ladder: TickLadderStore) {
    ghost function Repr(): set<object> {
      match this
      case Tree(tree) => {tree}
      case Hash(hash) => {hash}
      case Ladder(ladder) => {ladder, ladder.bids, ladder.asks}
    }

    ghost predicate Valid()
      reads Repr()
    {
      match this
      case Tree(tree) => tree.Valid()
      case Hash(hash) => hash.Valid()
      case Ladder(ladder) => ladder.Valid()
    }

    ghost function Content(): Shelves
      reads Repr()
    {
      match this
      case Tree(tree) => tree.Content()
      case Hash(hash) => hash.Content()
      case Ladder(ladder) => ladder.shelves
    }

    /** The store keeps the two sides. */
    ghost predicate Holds(sides: Sides)
      reads Repr()
    {
      Valid() && Keeps(Content(), sides)
    }

    /** The store has, or can make, a level at this price. */
    ghost predicate Seats(price: Price) {
      Ladder? ==> ladder.Ladder().Valid() && ladder.Ladder().SlotOf(price).Some?
    }

    method Query(request: Request) returns (answer: Answer)
      requires Valid() && request.Reads()
      ensures Answers(Content(), request, answer)
    {
      hide Answers;
      match this {
        case Tree(tree) => answer := tree.Query(request);
        case Hash(hash) => answer := hash.Query(request);
        case Ladder(ladder) => answer := ladder.Query(request);
      }
    }

    method Handle(request: Request) returns (answer: Answer)
      requires Valid()
      modifies Repr()
      ensures Valid()
      ensures request.EnsureLevel? && !Seats(request.price) ==>
                answer == Refused(PriceOutsideRange) && Content() == old(Content())
      ensures !request.EnsureLevel? || Seats(request.price) ==>
                Content() == Next(old(Content()), request) && Answers(old(Content()), request, answer)
    {
      hide Answers, Next;
      match this {
        case Tree(tree) => answer := tree.Handle(request);
        case Hash(hash) => answer := hash.Handle(request);
        case Ladder(ladder) => answer := ladder.Handle(request);
      }
    }

    /** The touch. */
    method Best(side: Side, ghost sides: Sides) returns (best: Option<KeyLevel>)
      requires Holds(sides)
      ensures best == if sides.On(side) == [] then None else Some(sides.On(side)[0])
    {
      hide Keeps;
      var answer := Query(BestLevel(side));
      best := answer.level;
      KeepsBest(Content(), sides, side, best);
    }

    /** Every level, best price first. */
    method Listing(side: Side, ghost sides: Sides) returns (levels: seq<KeyLevel>)
      requires Holds(sides)
      ensures levels == sides.On(side)
    {
      hide Keeps;
      var answer := Query(Levels(side));
      levels := answer.levels;
      KeepsAll(Content(), sides, side, levels);
    }

    /** Write through the best level. */
    method Rewrite(side: Side, price: Price, keys: seq<Key>, ghost sides: Sides)
      requires Holds(sides) && sides.On(side) != [] && sides.On(side)[0].price == price
      modifies Repr()
      ensures Holds(sides.With(side, [KeyLevel(price, keys)] + sides.On(side)[1..]))
    {
      hide Keeps, Next, Answers;
      KeepsRewritten(Content(), sides, side, keys);
      var _ := Handle(Requeue(side, price, keys));
    }

    /** Take the best level out. */
    method RemoveBest(side: Side, price: Price, ghost sides: Sides)
      requires Holds(sides) && sides.On(side) != [] && sides.On(side)[0].price == price
      modifies Repr()
      ensures Holds(sides.With(side, sides.On(side)[1..]))
    {
      hide Keeps, Next, Answers;
      KeepsRemoved(Content(), sides, side);
      var _ := Handle(RemoveLevel(side, price));
    }

    /** A key at the back of its level's queue, the level made if missing and
        refused if the store has no place for it. */
    method File(side: Side, price: Price, key: Key, ghost sides: Sides) returns (refused: Option<StoreError>)
      requires Holds(sides)
      modifies Repr()
      ensures refused == if Seats(price) then None else Some(PriceOutsideRange)
      ensures Holds(if refused.Some? then sides
                    else sides.With(side, Enqueue(RestsAscending(side), sides.On(side), price, key)))
    {
      hide Keeps, Enqueue;
      KeepsFiled(Content(), sides, side, price, key);
      var made := Handle(EnsureLevel(side, price));
      if made.Refused? {
        return Some(made.error);
      }
      var _ := Handle(Requeue(side, price, made.level.value.keys + [key]));
      return None;
    }

    /** A key out of its level's queue; the level goes if it drained. */
    method Drop(side: Side, price: Price, key: Key, ghost sides: Sides)
      requires Holds(sides) && price in ShelfOf(sides.On(side))
      modifies Repr()
      ensures Holds(sides.With(side, RemoveEmpty(DropKey(sides.On(side), price, key), price)))
    {
      hide Keep, DropKey, RemoveEmpty, ShelfOf, SortedKeys;
      assert KeepsSide(Content(), sides, side);
      KeepsDropped(Content(), sides, side, price, key);
      hide Keeps;
      var found := Query(Level(side, price));
      var keys := Keep(found.level.value.keys, {key});
      var _ := Handle(Requeue(side, price, keys));
      if keys == [] {
        var _ := Handle(RemoveLevel(side, price));
      }
    }
  }

  /** An empty store of the layout asked for; only the dense one can refuse. */
  method Open(layout: Layout, spec: InstrumentSpec, room: nat) returns (r: Result<Backend, StoreError>)
    requires spec.Valid()
    ensures r.Err? <==> layout == Laddered && !LadderFits(spec, room)
    ensures r.Err? ==> r.error == if spec.maxPrice.None? then UnboundedPriceRange else PriceRangeTooLarge
    ensures r.Ok? ==> fresh(r.value.Repr()) && r.value.Holds(Sides([], [])) && Fits(r.value, spec)
    ensures r.Ok? ==> r.value.Tree? == (layout == Ordered) && r.value.Hash? == (layout == Hashed)
  {
    match layout {
      case Ordered =>
        var tree := new BTreeStore();
        return Ok(Tree(tree));
      case Hashed =>
        var hash := new HashMapStore();
        return Ok(Hash(hash));
      case Laddered =>
        var built := TickLadderStore.TryNew(spec, room);
        return if built.Ok? then Ok(Ladder(built.value)) else Err(built.error);
    }
  }

  /** A ladder was built for this instrument. */
  ghost predicate Fits(store: Backend, spec: InstrumentSpec) {
    store.Ladder? ==> spec.Valid() && spec.maxPrice.Some? && store.ladder.Ladder() == GridOf(spec)
  }

  /** A ladder built for the book's own instrument has a place for every order
      the book admits: a storage error cannot reach the caller. */
  lemma AdmittedIsSeated(store: Backend, spec: InstrumentSpec, order: Order)
    requires spec.Valid() && Fits(store, spec) && order.kind.Limit? && Admit(spec, order).Ok?
    requires store.Ladder? ==> order.kind.price % spec.tickSize == 0
    ensures store.Seats(order.kind.price)
  {
    assert order.kind.Prices()[0] == order.kind.price;
    if store.Ladder? {
      AdmittedHasSlot(spec, order.kind.price);
    }
  }
}
