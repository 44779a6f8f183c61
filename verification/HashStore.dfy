/** The hashed store: levels by price in no order, and beside them a heap of the
    same prices whose top is the best. */
module HashStore {
  import opened Wrappers
  import opened Instrument
  import opened Book
  import opened Ownership
  import opened Storage

  ghost predicate NoTwice(heap: seq<Price>) {
    forall i, j :: 0 <= i < j < |heap| ==> heap[i] != heap[j]
  }

  ghost predicate OnceEach(heap: seq<Price>, shelf: Shelf) {
    && NoTwice(heap)
    && (forall price :: price in heap <==> price in shelf)
  }

  function Without(heap: seq<Price>, price: Price): seq<Price> {
    if heap == [] then []
    else if heap[0] == price then Without(heap[1..], price)
    else [heap[0]] + Without(heap[1..], price)
  }

  lemma {:induction false} WithoutKeeps(heap: seq<Price>, price: Price)
    ensures forall p :: p in Without(heap, price) <==> p in heap && p != price
    ensures NoTwice(heap) ==> NoTwice(Without(heap, price))
  {
    if heap != [] {
      WithoutKeeps(heap[1..], price);
      assert heap == [heap[0]] + heap[1..];
      if NoTwice(heap) {
        assert NoTwice(heap[1..]) && heap[0] !in heap[1..];
        assert NoTwice([heap[0]] + Without(heap[1..], price));
      }
    }
  }

  class HashMapStore {
    var bids: Shelf
    var asks: Shelf
    var bidsIndex: seq<Price>
    var asksIndex: seq<Price>

    /** Each heap holds exactly its map's prices, once each. */
    ghost predicate Valid()
      reads this
    {
      OnceEach(bidsIndex, bids) && OnceEach(asksIndex, asks)
    }

    ghost function Content(): Shelves
      reads this
    {
      Shelves(bids, asks)
    }

    constructor ()
      ensures Valid() && Content() == Shelves(map[], map[])
    {
      bids, asks, bidsIndex, asksIndex := map[], map[], [], [];
    }

    function On(side: Side): Shelf
      reads this
    {
      if side == Bid then bids else asks
    }

    function Heap(side: Side): seq<Price>
      reads this
    {
      if side == Bid then bidsIndex else asksIndex
    }

    method Put(side: Side, shelf: Shelf, heap: seq<Price>)
      requires Valid() && OnceEach(heap, shelf)
      modifies this
      ensures Valid() && Content() == old(Content()).With(side, shelf)
    {
      if side == Bid {
        bids, bidsIndex := shelf, heap;
      } else {
        asks, asksIndex := shelf, heap;
      }
    }

    /** The top of the heap: the price every other one comes after. */
    method Peek(side: Side) returns (top: Option<Price>)
      ensures top.None? <==> Heap(side) == []
      ensures top.Some? ==> top.value in Heap(side)
      ensures top.Some? ==> forall price :: price in Heap(side) && price != top.value ==>
                              Before(RestsAscending(side), top.value, price)
    {
      var heap, ascending := Heap(side), RestsAscending(side);
      if heap == [] {
        return None;
      }
      var best := heap[0];
      for i := 1 to |heap|
        invariant best in heap
        invariant forall j :: 0 <= j < i && heap[j] != best ==> Before(ascending, best, heap[j])
      {
        if Before(ascending, heap[i], best) {
          best := heap[i];
        }
      }
      return Some(best);
    }

    method Best(side: Side) returns (found: Option<KeyLevel>)
      requires Valid()
      ensures IsBest(RestsAscending(side), found, On(side))
    {
      var top := Peek(side);
      match top {
        case None =>
          assert forall price :: price in On(side) ==> price in Heap(side);
          return None;
        case Some(price) => return Find(On(side), price);
      }
    }

    /** Every level, collected in whatever order the map has and sorted. */
    method Listing(side: Side) returns (levels: seq<KeyLevel>)
      ensures Lists(RestsAscending(side), levels, On(side))
    {
      hide Lists, SortedKeys, ShelfOf;
      var shelf, ascending := On(side), RestsAscending(side);
      var rest := shelf.Keys;
      levels := [];
      NothingSorted(ascending);
      while rest != {}
        invariant rest <= shelf.Keys && SortedKeys(ascending, levels)
        invariant ShelfOf(levels) == shelf - rest
        decreases |rest|
      {
        var price :| price in rest;
        PlaceShelf(ascending, levels, KeyLevel(price, shelf[price]));
        levels := Place(ascending, levels, KeyLevel(price, shelf[price]));
        rest := rest - {price};
      }
      assert shelf - {} == shelf;
      SortedLists(ascending, levels);
    }

    /** Answer a request that changes nothing. */
    method Query(request: Request) returns (answer: Answer)
      requires Valid() && request.Reads()
      ensures Answers(Content(), request, answer)
    {
      hide Lists, IsBest;
      match request {
        case Level(side, price) => return One(Find(On(side), price));
        case BestLevel(side) =>
          var found := Best(side);
          return One(found);
        case Levels(side) =>
          var levels := Listing(side);
          return Many(levels);
      }
    }

    /** Answer one request. */
    method Handle(request: Request) returns (answer: Answer)
      requires Valid()
      modifies this
      ensures Valid() && Content() == Next(old(Content()), request) && Answers(old(Content()), request, answer)
    {
      hide Lists, IsBest;
      var side := request.side;
      var shelf, heap := On(side), Heap(side);
      match request {
        case EnsureLevel(_, price) =>
          if price !in shelf {
            Put(side, shelf[price := []], heap + [price]);
          }
          return One(Find(On(side), price));
        case Requeue(_, price, keys) =>
          if price in shelf {
            Put(side, shelf[price := keys], heap);
          }
          return One(Find(shelf, price));
        case RemoveLevel(_, price) =>
          WithoutKeeps(heap, price);
          Put(side, shelf - {price}, Without(heap, price));
          return One(Find(shelf, price));
        case _ => answer := Query(request);
      }
    }
  }

  lemma NothingSorted(ascending: bool)
    ensures SortedKeys(ascending, []) && ShelfOf([]) == map[]
  {}
}
