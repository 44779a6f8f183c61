/** The dense store: one slot per legal tick and side, found by arithmetic, with
    the best occupied slot of each side cached. */
module LadderStore {
  import opened Sums
  import opened Widths
  import opened Wrappers
  import opened Instrument
  import opened Orders
  import opened Book
  import opened Ownership
  import opened Storage

  type Slots = seq<Option<KeyLevel>>

  /** The grid a ladder is built on: its lowest price, its tick and its length. */
  datatype Grid = Grid(min: Price, tick: nat, slots: nat) {
    predicate Valid() {
      tick > 0
    }

    function PriceAt(i: nat): Price {
      min + Ticks(i, tick)
    }

    /** Off the bottom, between ticks and off the top there is no slot. */
    function SlotOf(price: Price): (slot: Option<nat>)
      requires Valid()
      ensures slot.Some? ==> slot.value < slots
    {
      if price < min then None
      else
        var offset: nat := price - min;
        if offset % tick != 0 then None
        else
          var index: nat := offset / tick;
          if index < slots then Some(index) else None
    }
  }

  lemma PricesClimb(grid: Grid, i: nat, j: nat)
    requires grid.Valid() && i < j
    ensures grid.PriceAt(i) < grid.PriceAt(j)
  {
    MulStrictlyMonotone(grid.tick, i, j);
  }

  /** Slot and price determine each other. */
  lemma SlotOfItsPrice(grid: Grid, i: nat)
    requires grid.Valid() && i < grid.slots
    ensures grid.SlotOf(grid.PriceAt(i)) == Some(i)
  {
    TicksOnGrid(i, grid.tick);
    TicksDivide(i, grid.tick);
  }

  lemma TicksDivide(i: nat, tick: nat)
    requires tick > 0
    ensures Ticks(i, tick) / tick == i
  {
    DivUnique(Ticks(i, tick), tick, i);
  }

  lemma PriceOfItsSlot(grid: Grid, price: Price)
    requires grid.Valid() && grid.SlotOf(price).Some?
    ensures grid.PriceAt(grid.SlotOf(price).value) == price
  {
    Multiple(price - grid.min, grid.tick);
  }

  /** A price the instrument admits has a slot. */
  lemma AdmittedHasSlot(spec: InstrumentSpec, price: Price)
    requires spec.Valid() && spec.maxPrice.Some? && price % spec.tickSize == 0
    requires spec.AdmitsPrice(price).Ok?
    ensures GridOf(spec).SlotOf(price).Some?
  {
    SubtractMultiples(price, spec.minPrice, spec.tickSize);
    DivMonotone(price - spec.minPrice, spec.maxPrice.value - spec.minPrice, spec.tickSize);
  }

  function GridOf(spec: InstrumentSpec): (grid: Grid)
    requires spec.Valid() && spec.maxPrice.Some?
    ensures grid.Valid()
  {
    Grid(spec.minPrice, spec.tickSize, (spec.maxPrice.value - spec.minPrice) / spec.tickSize + 1)
  }

  /** A ladder over the instrument's whole band can be built. */
  predicate LadderFits(spec: InstrumentSpec, room: nat)
    requires spec.Valid()
  {
    spec.maxPrice.Some? && GridOf(spec).slots < TWO_64 && GridOf(spec).slots <= room
  }

  /** The slots hold the shelf: each occupied exactly by its own price. */
  ghost predicate Slotted(grid: Grid, slots: Slots, shelf: Shelf)
    requires grid.Valid()
  {
    && |slots| == grid.slots
    && (forall i :: 0 <= i < |slots| ==> slots[i] == Find(shelf, grid.PriceAt(i)))
    && (forall price :: price in shelf ==> grid.SlotOf(price).Some?)
  }

  /** The cached best is the occupied slot at the touch; beyond it all is empty. */
  ghost predicate Touch(ascending: bool, slots: Slots, best: Option<nat>) {
    match best
    case None => forall i :: 0 <= i < |slots| ==> slots[i].None?
    case Some(b) =>
      && b < |slots| && slots[b].Some?
      && forall i :: 0 <= i < |slots| && (if ascending then i < b else i > b) ==> slots[i].None?
  }

  lemma LookUp(grid: Grid, slots: Slots, shelf: Shelf, price: Price)
    requires grid.Valid() && Slotted(grid, slots, shelf)
    ensures Find(shelf, price) == if grid.SlotOf(price).Some? then slots[grid.SlotOf(price).value] else None
  {
    if grid.SlotOf(price).Some? {
      PriceOfItsSlot(grid, price);
    }
  }

  lemma Written(grid: Grid, slots: Slots, shelf: Shelf, price: Price, keys: seq<Key>)
    requires grid.Valid() && Slotted(grid, slots, shelf) && grid.SlotOf(price).Some?
    ensures Slotted(grid, slots[grid.SlotOf(price).value := Some(KeyLevel(price, keys))], shelf[price := keys])
  {
    var at := grid.SlotOf(price).value;
    PriceOfItsSlot(grid, price);
    forall i | 0 <= i < |slots| && i != at
      ensures grid.PriceAt(i) != price
    {
      SlotOfItsPrice(grid, i);
    }
  }

  lemma Taken(grid: Grid, slots: Slots, shelf: Shelf, price: Price)
    requires grid.Valid() && Slotted(grid, slots, shelf) && grid.SlotOf(price).Some?
    ensures Slotted(grid, slots[grid.SlotOf(price).value := None], shelf - {price})
  {
    var at := grid.SlotOf(price).value;
    PriceOfItsSlot(grid, price);
    forall i | 0 <= i < |slots| && i != at
      ensures grid.PriceAt(i) != price
    {
      SlotOfItsPrice(grid, i);
    }
  }

  /** The cached slot holds the best level. */
  lemma TouchIsBest(grid: Grid, ascending: bool, slots: Slots, best: Option<nat>, shelf: Shelf)
    requires grid.Valid() && Slotted(grid, slots, shelf) && Touch(ascending, slots, best)
    ensures IsBest(ascending, if best.Some? then slots[best.value] else None, shelf)
  {
    forall price | price in shelf
      ensures best.Some?
      ensures price != slots[best.value].value.price ==> Before(ascending, slots[best.value].value.price, price)
    {
      LookUp(grid, slots, shelf, price);
      PriceOfItsSlot(grid, price);
      var i := grid.SlotOf(price).value;
      if best.Some? && i < best.value {
        PricesClimb(grid, i, best.value);
      } else if best.Some? && i > best.value {
        PricesClimb(grid, best.value, i);
      }
    }
    if best.None? {
      assert shelf == map[];
    }
  }

  /** The levels of the slots seen so far, in price order. */
  ghost predicate Seen(grid: Grid, ascending: bool, slots: Slots, shelf: Shelf, levels: seq<KeyLevel>, from: nat,
                       to: nat)
    requires grid.Valid()
  {
    && from <= to <= |slots|
    && SortedKeys(ascending, levels)
    && (forall k :: 0 <= k < |levels| ==> Find(shelf, levels[k].price) == Some(levels[k]))
    && (forall k :: 0 <= k < |levels| ==> Between(grid, levels[k].price, from, to))
    && (forall i :: from <= i < to && slots[i].Some? ==> Listed(levels, grid.PriceAt(i)))
  }

  ghost predicate Between(grid: Grid, price: Price, from: nat, to: nat) {
    exists i: nat :: from <= i < to && price == grid.PriceAt(i)
  }

  lemma SeenAll(grid: Grid, ascending: bool, slots: Slots, shelf: Shelf, levels: seq<KeyLevel>)
    requires grid.Valid() && Slotted(grid, slots, shelf) && Seen(grid, ascending, slots, shelf, levels, 0, |slots|)
    ensures Lists(ascending, levels, shelf)
  {
    forall price | price in shelf
      ensures Listed(levels, price)
    {
      LookUp(grid, slots, shelf, price);
      PriceOfItsSlot(grid, price);
    }
  }

  lemma NothingSeen(grid: Grid, ascending: bool, slots: Slots, shelf: Shelf, at: nat)
    requires grid.Valid() && at <= |slots|
    ensures Seen(grid, ascending, slots, shelf, [], at, at)
  {}

  lemma SortedSnoc(ascending: bool, levels: seq<KeyLevel>, level: KeyLevel)
    requires SortedKeys(ascending, levels)
    requires forall k :: 0 <= k < |levels| ==> Before(ascending, levels[k].price, level.price)
    ensures SortedKeys(ascending, levels + [level])
  {}

  lemma ListedStill(levels: seq<KeyLevel>, level: KeyLevel, price: Price)
    ensures Listed(levels, price) ==> Listed(levels + [level], price)
    ensures Listed(levels + [level], level.price)
  {
    assert (levels + [level])[|levels|] == level;
    if k :| 0 <= k < |levels| && levels[k].price == price {
      assert (levels + [level])[k] == levels[k];
    }
  }

  /** A slot further from the touch prices behind everything seen so far. */
  lemma NextIsBehind(grid: Grid, ascending: bool, price: Price, from: nat, to: nat, next: nat)
    requires grid.Valid() && Between(grid, price, from, to) && if ascending then next == to else next + 1 == from
    ensures Before(ascending, price, grid.PriceAt(next))
  {
    hide Ticks;
    var i: nat :| from <= i < to && price == grid.PriceAt(i);
    if ascending {
      PricesClimb(grid, i, next);
    } else {
      PricesClimb(grid, next, i);
    }
  }

  lemma BetweenWidens(grid: Grid, price: Price, from: nat, to: nat, next: nat)
    ensures Between(grid, price, from, to) ==> Between(grid, price, from, to + 1)
    ensures Between(grid, price, from, to) && next + 1 == from ==> Between(grid, price, next, to)
  {}

  /** One slot further along the ladder, away from the touch. */
  lemma SeenMore(grid: Grid, ascending: bool, slots: Slots, shelf: Shelf, levels: seq<KeyLevel>, from: nat, to: nat,
                 next: nat)
    requires grid.Valid() && Slotted(grid, slots, shelf) && Seen(grid, ascending, slots, shelf, levels, from, to)
    requires if ascending then next == to < |slots| else next + 1 == from
    ensures Seen(grid, ascending, slots, shelf, if slots[next].Some? then levels + [slots[next].value] else levels,
                 if ascending then from else next, if ascending then to + 1 else to)
  {
    hide Ticks, Between, SortedKeys, Listed;
    forall k | 0 <= k < |levels|
      ensures Between(grid, levels[k].price, if ascending then from else next, if ascending then to + 1 else to)
      ensures Before(ascending, levels[k].price, grid.PriceAt(next))
    {
      assert Between(grid, levels[k].price, from, to);
      BetweenWidens(grid, levels[k].price, from, to, next);
      NextIsBehind(grid, ascending, levels[k].price, from, to, next);
    }
    if slots[next].Some? {
      var level := slots[next].value;
      NextIsBetween(grid, ascending, from, to, next);
      SortedSnoc(ascending, levels, level);
      ListedAllStill(grid, slots, levels, level, from, to);
    }
  }

  lemma NextIsBetween(grid: Grid, ascending: bool, from: nat, to: nat, next: nat)
    requires from <= to && if ascending then next == to else next + 1 == from
    ensures Between(grid, grid.PriceAt(next), if ascending then from else next, if ascending then to + 1 else to)
  {}

  lemma ListedAllStill(grid: Grid, slots: Slots, levels: seq<KeyLevel>, level: KeyLevel, from: nat, to: nat)
    requires from <= to <= |slots|
    ensures Listed(levels + [level], level.price)
    ensures forall i :: from <= i < to && slots[i].Some? && Listed(levels, grid.PriceAt(i)) ==>
              Listed(levels + [level], grid.PriceAt(i))
  {
    ListedStill(levels, level, level.price);
    forall i | from <= i < to && slots[i].Some? && Listed(levels, grid.PriceAt(i))
      ensures Listed(levels + [level], grid.PriceAt(i))
    {
      ListedStill(levels, level, grid.PriceAt(i));
    }
  }

  /** A slot nearer the touch than the cached best. */
  predicate Nearer(ascending: bool, at: nat, best: Option<nat>) {
    best.None? || if ascending then at < best.value else at > best.value
  }

  lemma TouchRaised(ascending: bool, slots: Slots, best: Option<nat>, at: nat, level: KeyLevel)
    requires Touch(ascending, slots, best) && at < |slots|
    ensures slots[at].Some? ==> !Nearer(ascending, at, best)
    ensures Touch(ascending, slots[at := Some(level)], if Nearer(ascending, at, best) then Some(at) else best)
  {}

  lemma TouchTaken(ascending: bool, slots: Slots, best: Option<nat>, at: nat)
    requires Touch(ascending, slots, best) && at < |slots|
    ensures slots[at].None? ==> slots[at := None] == slots
    ensures best != Some(at) ==> Touch(ascending, slots[at := None], best)
    ensures best == Some(at) ==>
              forall i :: 0 <= i < |slots| && (if ascending then i < at else i > at) ==> slots[i].None?
  {}

  class TickLadderStore {
    const bids: array<Option<KeyLevel>>
    const asks: array<Option<KeyLevel>>
    const minMinor: Price
    const tickSize: nat
    var bestBid: Option<nat>
    var bestAsk: Option<nat>
    ghost var shelves: Shelves

    ghost function Ladder(): Grid {
      Grid(minMinor, tickSize, bids.Length)
    }

    /** Both sides hold what they should, and both caches are right. */
    ghost predicate Valid()
      reads this, bids, asks
    {
      && bids != asks && Ladder().Valid()
      && Slotted(Ladder(), bids[..], shelves.bids) && Touch(RestsAscending(Bid), bids[..], bestBid)
      && Slotted(Ladder(), asks[..], shelves.asks) && Touch(RestsAscending(Ask), asks[..], bestAsk)
    }

    constructor (grid: Grid)
      requires grid.Valid()
      ensures Valid() && shelves == Shelves(map[], map[]) && Ladder() == grid
      ensures fresh(bids) && fresh(asks)
    {
      bids := new Option<KeyLevel>[grid.slots](_ => None);
      asks := new Option<KeyLevel>[grid.slots](_ => None);
      minMinor, tickSize := grid.min, grid.tick;
      bestBid, bestAsk := None, None;
      shelves := Shelves(map[], map[]);
    }

    /** A ladder needs a top, a span whose slots can be counted in 64 bits, and
        memory for them: `room` slots a side can be reserved. */
    static method TryNew(spec: InstrumentSpec, room: nat) returns (r: Result<TickLadderStore, StoreError>)
      requires spec.Valid()
      ensures spec.maxPrice.None? ==> r == Err(UnboundedPriceRange)
      ensures spec.maxPrice.Some? && !LadderFits(spec, room) ==> r == Err(PriceRangeTooLarge)
      ensures LadderFits(spec, room) ==>
                && r.Ok? && fresh(r.value) && fresh(r.value.bids) && fresh(r.value.asks) && r.value.Valid()
                && r.value.shelves == Shelves(map[], map[]) && r.value.Ladder() == GridOf(spec)
    {
      if spec.maxPrice.None? {
        return Err(UnboundedPriceRange);
      }
      var ticks := (spec.maxPrice.value - spec.minPrice) / spec.tickSize;
      if ticks + 1 >= TWO_64 || ticks + 1 > room {
        return Err(PriceRangeTooLarge);
      }
      var store := new TickLadderStore(GridOf(spec));
      return Ok(store);
    }

    /** Which slot a price has, if any. */
    method Index(price: Price) returns (index: Option<nat>)
      requires tickSize > 0
      ensures index == Ladder().SlotOf(price)
    {
      if price < minMinor {
        return None;
      }
      var offset := price - minMinor;
      if offset % tickSize != 0 {
        return None;
      }
      var slot := offset / tickSize;
      return if slot < bids.Length then Some(slot) else None;
    }

    function SlotsOf(side: Side): array<Option<KeyLevel>> {
      if side == Bid then bids else asks
    }

    function BestOf(side: Side): Option<nat>
      reads this
    {
      if side == Bid then bestBid else bestAsk
    }

    method SetBest(side: Side, best: Option<nat>)
      modifies this`bestBid, this`bestAsk
      ensures bestBid == if side == Bid then best else old(bestBid)
      ensures bestAsk == if side == Ask then best else old(bestAsk)
    {
      if side == Bid {
        bestBid := best;
      } else {
        bestAsk := best;
      }
    }

    /** The nearest occupied slot behind one that has just emptied. */
    method RepairBestAfterRemoval(side: Side, removed: nat)
      requires removed < SlotsOf(side).Length && SlotsOf(side)[removed].None?
      requires forall i ::
                 0 <= i < SlotsOf(side).Length && (if RestsAscending(side) then i < removed else i > removed) ==>
                   SlotsOf(side)[i].None?
      modifies this`bestBid, this`bestAsk
      ensures Touch(RestsAscending(side), SlotsOf(side)[..], BestOf(side))
      ensures side != Bid ==> bestBid == old(bestBid)
      ensures side != Ask ==> bestAsk == old(bestAsk)
    {
      var slots := SlotsOf(side);
      var best: Option<nat> := None;
      if side == Bid {
        var i: nat := removed;
        while i > 0 && best.None?
          invariant i <= removed < slots.Length
          invariant best.None? ==> forall j :: i <= j < slots.Length ==> slots[j].None?
          invariant best.Some? ==> Touch(false, slots[..], best)
        {
          i := i - 1;
          if slots[i].Some? {
            best := Some(i);
          }
        }
      } else {
        var i := removed + 1;
        while i < slots.Length && best.None?
          invariant removed < i <= slots.Length
          invariant best.None? ==> forall j :: 0 <= j < i ==> slots[j].None?
          invariant best.Some? ==> Touch(true, slots[..], best)
        {
          if slots[i].Some? {
            best := Some(i);
          }
          i := i + 1;
        }
      }
      SetBest(side, best);
    }

    /** The level at a price, made if missing; a price off the ladder is refused
        and nothing changes. */
    method EnsureLevel(side: Side, price: Price) returns (r: Result<KeyLevel, StoreError>)
      requires Valid()
      modifies this`bestBid, this`bestAsk, this`shelves, bids, asks
      ensures Valid()
      ensures Ladder().SlotOf(price).None? ==> r == Err(PriceOutsideRange) && shelves == old(shelves)
      ensures Ladder().SlotOf(price).Some? ==>
                shelves == Next(old(shelves), Request.EnsureLevel(side, price)) && price in shelves.On(side)
                && r == Ok(KeyLevel(price, shelves.On(side)[price]))
    {
      hide Lists, Find, Ticks, Touch;
      var index := Index(price);
      if index.None? {
        return Err(PriceOutsideRange);
      }
      var at, slots, ascending := index.value, SlotsOf(side), RestsAscending(side);
      ghost var grid, shelf, before := Ladder(), shelves.On(side), slots[..];
      LookUp(grid, before, shelf, price);
      TouchRaised(ascending, before, BestOf(side), at, KeyLevel(price, []));
      if Nearer(ascending, at, BestOf(side)) {
        SetBest(side, Some(at));
      }
      if slots[at].None? {
        NothingThere(shelf, price);
        Written(grid, before, shelf, price, []);
        slots[at] := Some(KeyLevel(price, []));
        shelves := shelves.With(side, shelf[price := []]);
        assert slots[..] == before[at := Some(KeyLevel(price, []))];
      } else {
        EnsuredIsThere(shelf, price);
      }
      r := Ok(slots[at].value);
    }

    /** Read one slot. */
    method At(side: Side, price: Price) returns (found: Option<KeyLevel>)
      requires Valid()
      ensures found == Find(shelves.On(side), price)
    {
      LookUp(Ladder(), SlotsOf(side)[..], shelves.On(side), price);
      var index := Index(price);
      found := if index.None? then None else SlotsOf(side)[index.value];
    }

    /** Write through the level at a price, if there is one. */
    method Rewrite(side: Side, price: Price, keys: seq<Key>) returns (found: Option<KeyLevel>)
      requires Valid()
      modifies this`shelves, bids, asks
      ensures Valid() && shelves == Next(old(shelves), Requeue(side, price, keys))
      ensures found == Find(old(shelves).On(side), price)
    {
      hide Lists, Ticks;
      found := At(side, price);
      if found.Some? {
        var index := Index(price);
        var slots := SlotsOf(side);
        ghost var grid, shelf, before := Ladder(), shelves.On(side), slots[..];
        LookUp(grid, before, shelf, price);
        Written(grid, before, shelf, price, keys);
        slots[index.value] := Some(KeyLevel(price, keys));
        shelves := shelves.With(side, shelf[price := keys]);
        assert slots[..] == before[index.value := Some(KeyLevel(price, keys))];
      }
    }

    /** The level at a price taken out; the cache is repaired if it was the touch. */
    method RemoveLevel(side: Side, price: Price) returns (removed: Option<KeyLevel>)
      requires Valid()
      modifies this`bestBid, this`bestAsk, this`shelves, bids, asks
      ensures Valid() && shelves == Next(old(shelves), Request.RemoveLevel(side, price))
      ensures removed == Find(old(shelves).On(side), price)
    {
      hide Lists, Ticks, Find, Touch;
      var slots := SlotsOf(side);
      ghost var grid, shelf, before := Ladder(), shelves.On(side), slots[..];
      LookUp(grid, before, shelf, price);
      var index := Index(price);
      if index.None? {
        NothingToTake(shelf, price);
        return None;
      }
      var at := index.value;
      Taken(grid, before, shelf, price);
      TouchTaken(RestsAscending(side), before, BestOf(side), at);
      removed := slots[at];
      slots[at] := None;
      shelves := shelves.With(side, shelf - {price});
      assert slots[..] == before[at := None];
      if removed.Some? && BestOf(side) == Some(at) {
        RepairBestAfterRemoval(side, at);
      }
    }

    /** The occupied slots, from the touch outwards. */
    method Listing(side: Side) returns (levels: seq<KeyLevel>)
      requires Valid()
      ensures Lists(RestsAscending(side), levels, shelves.On(side))
    {
      hide Slotted, Lists, Seen, Ticks;
      var slots := SlotsOf(side);
      ghost var grid, shelf := Ladder(), shelves.On(side);
      levels := [];
      if side == Bid {
        var i: nat := slots.Length;
        NothingSeen(grid, false, slots[..], shelf, i);
        while i > 0
          invariant i <= slots.Length && Seen(grid, false, slots[..], shelf, levels, i, slots.Length)
        {
          i := i - 1;
          SeenMore(grid, false, slots[..], shelf, levels, i + 1, slots.Length, i);
          if slots[i].Some? {
            levels := levels + [slots[i].value];
          }
        }
      } else {
        NothingSeen(grid, true, slots[..], shelf, 0);
        for i := 0 to slots.Length
          invariant Seen(grid, true, slots[..], shelf, levels, 0, i)
        {
          SeenMore(grid, true, slots[..], shelf, levels, 0, i, i);
          if slots[i].Some? {
            levels := levels + [slots[i].value];
          }
        }
      }
      SeenAll(grid, RestsAscending(side), slots[..], shelf, levels);
    }

    /** Answer a request that changes nothing. */
    method Query(request: Request) returns (answer: Answer)
      requires Valid() && request.Reads()
      ensures Answers(shelves, request, answer)
    {
      hide Lists, IsBest, Slotted, Touch, Ticks;
      var side := request.side;
      match request {
        case Level(_, price) =>
          var found := At(side, price);
          return One(found);
        case BestLevel(_) =>
          TouchIsBest(Ladder(), RestsAscending(side), SlotsOf(side)[..], BestOf(side), shelves.On(side));
          CachedSlot(RestsAscending(side), SlotsOf(side)[..], BestOf(side));
          return One(if BestOf(side).None? then None else SlotsOf(side)[BestOf(side).value]);
        case Levels(_) =>
          var levels := Listing(side);
          return Many(levels);
      }
    }

    /** Answer one request. */
    method Handle(request: Request) returns (answer: Answer)
      requires Valid()
      modifies this, bids, asks
      ensures Valid()
      ensures Refuses(Ladder(), request) ==> answer == Refused(PriceOutsideRange) && shelves == old(shelves)
      ensures !Refuses(Ladder(), request) ==>
                shelves == Next(old(shelves), request) && Answers(old(shelves), request, answer)
    {
      hide Lists, IsBest, Slotted, Touch, Ticks;
      match request {
        case EnsureLevel(side, price) =>
          var made := EnsureLevel(side, price);
          return if made.Ok? then One(Some(made.value)) else Refused(made.error);
        case Requeue(side, price, keys) =>
          var found := Rewrite(side, price, keys);
          return One(found);
        case RemoveLevel(side, price) =>
          var removed := RemoveLevel(side, price);
          return One(removed);
        case _ => answer := Query(request);
      }
    }
  }

  /** The one thing a ladder refuses: making a level off its grid. */
  predicate Refuses(grid: Grid, request: Request)
    requires grid.Valid()
  {
    request.EnsureLevel? && grid.SlotOf(request.price).None?
  }

  lemma CachedSlot(ascending: bool, slots: Slots, best: Option<nat>)
    requires Touch(ascending, slots, best)
    ensures best.Some? ==> best.value < |slots|
  {}

  lemma NothingToTake(shelf: Shelf, price: Price)
    requires Find(shelf, price).None?
    ensures shelf - {price} == shelf
  {}
}
