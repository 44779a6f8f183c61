/** The baseline store: an ordered map per side, held as a list in price order. */
module TreeStore {
  import opened Wrappers
  import opened Instrument
  import opened Book
  import opened Ownership
  import opened Storage

  class BTreeStore {
    var bids: seq<KeyLevel>
    var asks: seq<KeyLevel>

    ghost predicate Valid()
      reads this
    {
      SortedKeys(RestsAscending(Bid), bids) && SortedKeys(RestsAscending(Ask), asks)
    }

    ghost function Content(): Shelves
      reads this
    {
      Shelves(ShelfOf(bids), ShelfOf(asks))
    }

    constructor ()
      ensures Valid() && Content() == Shelves(map[], map[])
    {
      bids, asks := [], [];
    }

    function On(side: Side): seq<KeyLevel>
      reads this
    {
      if side == Bid then bids else asks
    }

    method Put(side: Side, levels: seq<KeyLevel>)
      requires Valid() && SortedKeys(RestsAscending(side), levels)
      modifies this
      ensures Valid() && Content() == old(Content()).With(side, ShelfOf(levels))
    {
      if side == Bid {
        bids := levels;
      } else {
        asks := levels;
      }
    }

    /** Answer a request that changes nothing. */
    method Query(request: Request) returns (answer: Answer)
      requires Valid() && request.Reads()
      ensures Answers(Content(), request, answer)
    {
      hide SortedKeys, Lists, IsBest, Find, ShelfOf;
      var ascending, levels := RestsAscending(request.side), On(request.side);
      SortedLists(ascending, levels);
      FirstIsBest(ascending, levels, ShelfOf(levels));
      match request {
        case Level(_, price) =>
          LookShelf(ascending, levels, price);
          return One(Look(levels, price));
        case BestLevel(_) =>
          return One(if levels == [] then None else Some(levels[0]));
        case Levels(_) =>
          return Many(levels);
      }
    }

    /** Answer one request. */
    method Handle(request: Request) returns (answer: Answer)
      requires Valid()
      modifies this
      ensures Valid() && Content() == Next(old(Content()), request) && Answers(old(Content()), request, answer)
    {
      hide SortedKeys, Lists, IsBest, Find, ShelfOf;
      var side := request.side;
      var ascending, levels := RestsAscending(side), On(side);
      match request {
        case EnsureLevel(_, price) =>
          LookShelf(ascending, levels, price);
          var found := Look(levels, price);
          if found.Some? {
            EnsuredIsThere(ShelfOf(levels), price);
            return One(found);
          }
          PlaceShelf(ascending, levels, KeyLevel(price, []));
          NothingThere(ShelfOf(levels), price);
          Put(side, Place(ascending, levels, KeyLevel(price, [])));
          return One(Some(KeyLevel(price, [])));
        case Requeue(_, price, keys) =>
          LookShelf(ascending, levels, price);
          var found := Look(levels, price);
          if found.Some? {
            EnsuredIsThere(ShelfOf(levels), price);
            PlaceShelf(ascending, levels, KeyLevel(price, keys));
            Put(side, Place(ascending, levels, KeyLevel(price, keys)));
          } else {
            NothingThere(ShelfOf(levels), price);
          }
          return One(found);
        case RemoveLevel(_, price) =>
          LookShelf(ascending, levels, price);
          RemoveShelf(ascending, levels, price);
          Put(side, Remove(levels, price));
          return One(Look(levels, price));
        case _ => answer := Query(request);
      }
    }
  }
}
