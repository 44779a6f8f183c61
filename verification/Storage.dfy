/** Where price levels are kept. A store answers from one sorted map per side;
    three layouts, and proofs that no caller can tell them apart. */
module Storage {
  import opened Wrappers
  import opened Instrument
  import opened Orders
  import opened Book
  import opened Ownership

  /** One side as a map from price to queue, and the two together. */
  type Shelf = map<Price, seq<Key>>

  datatype Shelves = Shelves(bids: Shelf, asks: Shelf) {
    function On(side: Side): Shelf {
      if side == Bid then bids else asks
    }

    function With(side: Side, shelf: Shelf): Shelves {
      if side == Bid then this.(bids := shelf) else this.(asks := shelf)
    }
  }

  // ---------------------------------------------------- what a store answers

  /** What the engine asks of a store. `Requeue` is the engine writing through
      the level it was handed. */
  datatype Request =
    | EnsureLevel(side: Side, price: Price)
    | Requeue(side: Side, price: Price, keys: seq<Key>)
    | RemoveLevel(side: Side, price: Price)
    | Level(side: Side, price: Price)
    | BestLevel(side: Side)
    | Levels(side: Side)
  {
    predicate Reads() {
      Level? || BestLevel? || Levels?
    }
  }

  datatype Answer = One(level: Option<KeyLevel>) | Refused(error: StoreError) | Many(levels: seq<KeyLevel>)

  function Find(shelf: Shelf, price: Price): Option<KeyLevel> {
    if price in shelf then Some(KeyLevel(price, shelf[price])) else None
  }

  lemma EnsuredIsThere(shelf: Shelf, price: Price)
    requires Find(shelf, price).Some?
    ensures price in shelf && Find(shelf, price) == Some(KeyLevel(price, shelf[price]))
  {}

  lemma NothingThere(shelf: Shelf, price: Price)
    requires Find(shelf, price).None?
    ensures price !in shelf && Find(shelf[price := []], price) == Some(KeyLevel(price, []))
  {}

  ghost predicate SortedKeys(ascending: bool, levels: seq<KeyLevel>) {
    forall i, j :: 0 <= i < j < |levels| ==> Before(ascending, levels[i].price, levels[j].price)
  }

  ghost predicate Listed(levels: seq<KeyLevel>, price: Price) {
    exists i :: 0 <= i < |levels| && levels[i].price == price
  }

  /** The listing of a shelf, best price first. */
  ghost predicate Lists(ascending: bool, levels: seq<KeyLevel>, shelf: Shelf) {
    && SortedKeys(ascending, levels)
    && (forall i :: 0 <= i < |levels| ==> Find(shelf, levels[i].price) == Some(levels[i]))
    && (forall price :: price in shelf ==> Listed(levels, price))
  }

  /** The best price of a shelf is the one no other comes before. */
  ghost predicate IsBest(ascending: bool, found: Option<KeyLevel>, shelf: Shelf) {
    match found
    case None => shelf == map[]
    case Some(level) =>
      && Find(shelf, level.price) == found
      && forall price :: price in shelf && price != level.price ==> Before(ascending, level.price, price)
  }

  function Next(shelves: Shelves, request: Request): Shelves {
    match request
    case EnsureLevel(side, price) =>
      if price in shelves.On(side) then shelves else shelves.With(side, shelves.On(side)[price := []])
    case Requeue(side, price, keys) =>
      if price in shelves.On(side) then shelves.With(side, shelves.On(side)[price := keys]) else shelves
    case RemoveLevel(side, price) => shelves.With(side, shelves.On(side) - {price})
    case _ => shelves
  }

  ghost predicate Answers(shelves: Shelves, request: Request, answer: Answer) {
    match request
    case EnsureLevel(side, price) => answer == One(Find(Next(shelves, request).On(side), price))
    case Requeue(side, price, _) => answer == One(Find(shelves.On(side), price))
    case RemoveLevel(side, price) => answer == One(Find(shelves.On(side), price))
    case Level(side, price) => answer == One(Find(shelves.On(side), price))
    case BestLevel(side) => answer.One? && IsBest(RestsAscending(side), answer.level, shelves.On(side))
    case Levels(side) => answer.Many? && Lists(RestsAscending(side), answer.levels, shelves.On(side))
  }

  /** Nothing comes before the first level of a listing. */
  lemma FirstIsBest(ascending: bool, levels: seq<KeyLevel>, shelf: Shelf)
    requires Lists(ascending, levels, shelf)
    ensures IsBest(ascending, if levels == [] then None else Some(levels[0]), shelf)
  {
    if levels == [] {
      assert forall price :: price in shelf ==> Listed(levels, price);
      assert shelf == map[];
    } else {
      forall price | price in shelf && price != levels[0].price
        ensures Before(ascending, levels[0].price, price)
      {
        assert Listed(levels, price);
      }
    }
  }

  lemma RestIsListed(ascending: bool, levels: seq<KeyLevel>, shelf: Shelf)
    requires Lists(ascending, levels, shelf) && levels != []
    ensures Lists(ascending, levels[1..], shelf - {levels[0].price})
  {
    forall price | price in shelf - {levels[0].price}
      ensures Listed(levels[1..], price)
    {
      assert Listed(levels, price);
      var i :| 0 <= i < |levels| && levels[i].price == price;
      assert levels[1..][i - 1].price == price;
    }
  }

  lemma BestIsUnique(ascending: bool, a: Option<KeyLevel>, b: Option<KeyLevel>, shelf: Shelf)
    requires IsBest(ascending, a, shelf) && IsBest(ascending, b, shelf)
    ensures a == b
  {}

  /** A sorted listing is unique. */
  lemma {:induction false} ListingIsUnique(ascending: bool, a: seq<KeyLevel>, b: seq<KeyLevel>, shelf: Shelf)
    requires Lists(ascending, a, shelf) && Lists(ascending, b, shelf)
    ensures a == b
  {
    FirstIsBest(ascending, a, shelf);
    FirstIsBest(ascending, b, shelf);
    BestIsUnique(ascending, if a == [] then None else Some(a[0]), if b == [] then None else Some(b[0]), shelf);
    if a != [] {
      RestIsListed(ascending, a, shelf);
      RestIsListed(ascending, b, shelf);
      hide Lists, IsBest;
      ListingIsUnique(ascending, a[1..], b[1..], shelf - {a[0].price});
      assert a == [a[0]] + a[1..] && b == [b[0]] + b[1..];
    }
  }

  /** A store has no latitude: the answer to every request is determined. */
  lemma AnswersAreDetermined(shelves: Shelves, request: Request, a: Answer, b: Answer)
    requires Answers(shelves, request, a) && Answers(shelves, request, b)
    ensures a == b
  {
    if request.BestLevel? {
      BestIsUnique(RestsAscending(request.side), a.level, b.level, shelves.On(request.side));
    } else if request.Levels? {
      ListingIsUnique(RestsAscending(request.side), a.levels, b.levels, shelves.On(request.side));
    }
  }

  // ------------------------------------------- a sorted list read as a shelf

  ghost function ShelfOf(levels: seq<KeyLevel>): Shelf {
    if levels == [] then map[] else ShelfOf(levels[1..])[levels[0].price := levels[0].keys]
  }

  /** A level at its place in price order, instead of any at the same price. */
  function Place(ascending: bool, levels: seq<KeyLevel>, level: KeyLevel): seq<KeyLevel> {
    if levels == [] then [level]
    else if levels[0].price == level.price then [level] + levels[1..]
    else if Before(ascending, level.price, levels[0].price) then [level] + levels
    else [levels[0]] + Place(ascending, levels[1..], level)
  }

  function Look(levels: seq<KeyLevel>, price: Price): Option<KeyLevel> {
    if levels == [] then None else if levels[0].price == price then Some(levels[0]) else Look(levels[1..], price)
  }

  function Remove(levels: seq<KeyLevel>, price: Price): seq<KeyLevel> {
    if levels == [] then []
    else if levels[0].price == price then levels[1..]
    else [levels[0]] + Remove(levels[1..], price)
  }

  lemma {:induction false} ShelfListed(levels: seq<KeyLevel>)
    ensures forall price :: price in ShelfOf(levels) <==> Listed(levels, price)
  {
    if levels != [] {
      ShelfListed(levels[1..]);
      forall price
        ensures Listed(levels, price) <==> levels[0].price == price || Listed(levels[1..], price)
      {
        if i :| 0 <= i < |levels| && levels[i].price == price {
          assert i > 0 ==> levels[1..][i - 1].price == price;
        }
        if i :| 0 <= i < |levels[1..]| && levels[1..][i].price == price {
          assert levels[i + 1].price == price;
        }
      }
    }
  }

  /** A sorted list is the listing of the shelf it is read as. */
  lemma {:induction false} SortedLists(ascending: bool, levels: seq<KeyLevel>)
    requires SortedKeys(ascending, levels)
    ensures Lists(ascending, levels, ShelfOf(levels))
  {
    ShelfListed(levels);
    if levels != [] {
      SortedLists(ascending, levels[1..]);
      forall i | 0 <= i < |levels|
        ensures Find(ShelfOf(levels), levels[i].price) == Some(levels[i])
      {
        assert i > 0 ==> levels[1..][i - 1] == levels[i];
      }
    }
  }

  /** Everything behind the head of a sorted list comes after it. */
  lemma BehindHead(ascending: bool, levels: seq<KeyLevel>)
    requires SortedKeys(ascending, levels) && levels != []
    ensures SortedKeys(ascending, levels[1..])
    ensures forall price :: price in ShelfOf(levels[1..]) ==> Before(ascending, levels[0].price, price)
  {
    ShelfListed(levels[1..]);
    forall price | Listed(levels[1..], price)
      ensures Before(ascending, levels[0].price, price)
    {
      var i :| 0 <= i < |levels[1..]| && levels[1..][i].price == price;
      assert levels[i + 1].price == price;
    }
  }

  lemma SortedCons(ascending: bool, level: KeyLevel, levels: seq<KeyLevel>)
    requires SortedKeys(ascending, levels)
    requires forall price :: price in ShelfOf(levels) ==> Before(ascending, level.price, price)
    ensures SortedKeys(ascending, [level] + levels)
    ensures ShelfOf([level] + levels) == ShelfOf(levels)[level.price := level.keys]
  {
    ShelfListed(levels);
    assert ([level] + levels)[1..] == levels;
    forall i | 0 <= i < |levels|
      ensures Before(ascending, level.price, levels[i].price)
    {
      assert Listed(levels, levels[i].price);
    }
  }

  lemma {:induction false} PlaceShelf(ascending: bool, levels: seq<KeyLevel>, level: KeyLevel)
    requires SortedKeys(ascending, levels)
    ensures SortedKeys(ascending, Place(ascending, levels, level))
    ensures ShelfOf(Place(ascending, levels, level)) == ShelfOf(levels)[level.price := level.keys]
  {
    if levels == [] {
      SortedCons(ascending, level, []);
      assert [level] + [] == [level];
    } else {
      BehindHead(ascending, levels);
      hide SortedKeys;
      if levels[0].price == level.price {
        SortedCons(ascending, level, levels[1..]);
      } else if Before(ascending, level.price, levels[0].price) {
        SortedCons(ascending, level, levels);
      } else {
        PlaceShelf(ascending, levels[1..], level);
        SortedCons(ascending, levels[0], Place(ascending, levels[1..], level));
      }
    }
  }

  lemma {:induction false} LookShelf(ascending: bool, levels: seq<KeyLevel>, price: Price)
    requires SortedKeys(ascending, levels)
    ensures Look(levels, price) == Find(ShelfOf(levels), price)
  {
    if levels != [] {
      BehindHead(ascending, levels);
      LookShelf(ascending, levels[1..], price);
    }
  }

  lemma {:induction false} RemoveShelf(ascending: bool, levels: seq<KeyLevel>, price: Price)
    requires SortedKeys(ascending, levels)
    ensures SortedKeys(ascending, Remove(levels, price))
    ensures ShelfOf(Remove(levels, price)) == ShelfOf(levels) - {price}
  {
    if levels != [] {
      BehindHead(ascending, levels);
      hide SortedKeys;
      if levels[0].price != price {
        RemoveShelf(ascending, levels[1..], price);
        SortedCons(ascending, levels[0], Remove(levels[1..], price));
      }
    }
  }
}
