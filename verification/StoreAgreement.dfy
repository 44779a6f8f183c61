/** The three stores give one and the same answer to any run of requests, and three
    books that differ in nothing but the store cannot be told apart. */
module StoreAgreement {
  import opened Wrappers
  import opened Instrument
  import opened Book
  import opened Ownership
  import opened Storage
  import opened TreeStore
  import opened HashStore
  import opened LadderStore
  import opened Engine
  import opened Ticking
  import opened OrderBooks
  import opened Backends

  /** Every level the run asks for lies on the ladder. */
  ghost predicate OnGrid(grid: Grid, requests: seq<Request>)
    requires grid.Valid()
  {
    forall i :: 0 <= i < |requests| ==> !Refuses(grid, requests[i])
  }

  /** What a run of requests makes of the shelves. */
  function After(shelves: Shelves, requests: seq<Request>): Shelves
    decreases |requests|
  {
    if requests == [] then shelves else After(Next(shelves, requests[0]), requests[1..])
  }

  /** The three in lockstep: equal answers all the way, equal content after. */
  method Lockstep(tree: BTreeStore, hash: HashMapStore, ladder: TickLadderStore, requests: seq<Request>)
    returns (fromTree: seq<Answer>, fromHash: seq<Answer>, fromLadder: seq<Answer>)
    requires tree.Valid() && hash.Valid() && ladder.Valid()
    requires tree.Content() == hash.Content() == ladder.shelves
    requires OnGrid(ladder.Ladder(), requests)
    modifies tree, hash, ladder, ladder.bids, ladder.asks
    ensures tree.Valid() && hash.Valid() && ladder.Valid()
    ensures tree.Content() == hash.Content() == ladder.shelves == After(old(tree.Content()), requests)
    ensures |fromTree| == |requests| && fromTree == fromHash == fromLadder
  {
    hide Answers, Next;
    fromTree, fromHash, fromLadder := [], [], [];
    ghost var grid := ladder.Ladder();
    assert requests[0..] == requests;
    for i := 0 to |requests|
      invariant tree.Valid() && hash.Valid() && ladder.Valid()
      invariant tree.Content() == hash.Content() == ladder.shelves
      invariant After(tree.Content(), requests[i..]) == After(old(tree.Content()), requests)
      invariant |fromTree| == i && fromTree == fromHash == fromLadder
    {
      ghost var shelves := tree.Content();
      AfterUnfolds(shelves, requests, i);
      assert !Refuses(grid, requests[i]);
      var a := tree.Handle(requests[i]);
      var b := hash.Handle(requests[i]);
      var c := ladder.Handle(requests[i]);
      AnswersAreDetermined(shelves, requests[i], a, b);
      AnswersAreDetermined(shelves, requests[i], a, c);
      fromTree, fromHash, fromLadder := fromTree + [a], fromHash + [b], fromLadder + [c];
    }
  }

  lemma AfterUnfolds(shelves: Shelves, requests: seq<Request>, i: nat)
    requires i < |requests|
    ensures After(shelves, requests[i..]) == After(Next(shelves, requests[i]), requests[i + 1..])
  {
    assert requests[i..][0] == requests[i] && requests[i..][1..] == requests[i + 1..];
  }

  // ---------------------------------------------- three books, three stores

  /** What a caller can see after a command: what it was told, both touches and
      both ordered lists of levels. */
  datatype Sight = Sight(
    response: Response,
    bestBid: Option<PriceLevel>,
    bestAsk: Option<PriceLevel>,
    bids: seq<PriceLevel>,
    asks: seq<PriceLevel>)

  function HeadOf(levels: seq<PriceLevel>): Option<PriceLevel> {
    if levels == [] then None else Some(levels[0])
  }

  /** What a run of commands lets a caller see, with no store in sight. */
  ghost function Sights(venue: Venue, b: Book, commands: seq<Command>): seq<Sight>
    requires Ready(venue, b) && AllLegal(venue, commands)
    decreases |commands|
  {
    if commands == [] then []
    else
      ApplyKeeps(venue, b, commands[0]);
      var after := Apply(venue, b, commands[0]);
      [Sight(ResponseTo(venue, b, commands[0]), HeadOf(after.bids), HeadOf(after.asks), after.bids, after.asks)]
      + Sights(venue, after, commands[1..])
  }

  lemma SightsUnfold(venue: Venue, b: Book, commands: seq<Command>, i: nat)
    requires Ready(venue, b) && AllLegal(venue, commands) && i < |commands|
    ensures Legal(venue, commands[i]) && Ready(venue, Apply(venue, b, commands[i]))
    ensures var after := Apply(venue, b, commands[i]);
            Sights(venue, b, commands[i..]) ==
            [Sight(ResponseTo(venue, b, commands[i]), HeadOf(after.bids), HeadOf(after.asks), after.bids, after.asks)]
            + Sights(venue, after, commands[i + 1..])
  {
    hide WellFormed, Apply, ResponseTo, HeadOf;
    ApplyKeeps(venue, b, commands[i]);
    assert commands[i..][0] == commands[i] && commands[i..][1..] == commands[i + 1..];
  }

  /** Everything there is to see of a book. */
  method See(b: OrderBook, response: Response) returns (sight: Sight)
    requires b.Valid()
    ensures sight == Sight(response, HeadOf(b.book.bids), HeadOf(b.book.asks), b.book.bids, b.book.asks)
  {
    hide b.Stored, b.Counters, WellFormed, Owns, Shows;
    var bestBid := b.BestLevel(Bid);
    var bestAsk := b.BestLevel(Ask);
    var bids := b.Levels(Bid);
    var asks := b.Levels(Ask);
    sight := Sight(response, bestBid, bestAsk, bids, asks);
  }

  /** Run commands on one book, looking after each. */
  method Watch(b: OrderBook, commands: seq<Command>, ghost before: Book) returns (seen: seq<Sight>)
    requires b.Valid() && AllLegal(b.venue, commands) && before == b.book
    requires b.StopsGridded(before) && b.AllGridded(commands)
    modifies b, b.store.Repr()
    ensures b.Valid() && b.book == Run(b.venue, before, commands)
    ensures seen == Sights(b.venue, before, commands)
  {
    hide b.Stored, b.Linked, b.Counters, b.Gridded, b.StopsGridded, WellFormed, Owns, Shows, Apply, ResponseTo, HeadOf;
    assert commands[0..] == commands;
    seen := [];
    for i := 0 to |commands|
      invariant b.Valid() && b.StopsGridded(b.book)
      invariant Run(b.venue, b.book, commands[i..]) == Run(b.venue, before, commands)
      invariant seen + Sights(b.venue, b.book, commands[i..]) == Sights(b.venue, before, commands)
    {
      RunUnfolds(b.venue, b.book, commands, i);
      SightsUnfold(b.venue, b.book, commands, i);
      var response := b.Perform(commands[i], b.book);
      var sight := See(b, response);
      seen := seen + [sight];
    }
    assert commands[|commands|..] == [];
  }

  /** The same from an empty book over a store of the layout asked for. */
  method WatchOver(venue: Venue, layout: Layout, room: nat, commands: seq<Command>) returns (seen: seq<Sight>)
    requires venue.Valid() && LadderFits(venue.spec, room)
    requires AllLegal(venue, commands) && AllOnTick(venue.spec, commands)
    ensures Ready(venue, EMPTY) && seen == Sights(venue, EMPTY, commands)
  {
    hide WholeTicks;
    var made := OrderBook.TryNew(venue, layout, room);
    var b := made.value;
    assert StopsOnTick(venue.spec, EMPTY);
    assert forall i :: 0 <= i < |commands| ==> CommandOnTick(venue.spec, commands[i]);
    seen := Watch(b, commands, EMPTY);
  }

  lemma {:induction false} SightEach(venue: Venue, b: Book, commands: seq<Command>)
    requires Ready(venue, b) && AllLegal(venue, commands)
    ensures |Sights(venue, b, commands)| == |commands|
    decreases |commands|
  {
    hide WellFormed, Apply, ResponseTo;
    if commands != [] {
      ApplyKeeps(venue, b, commands[0]);
      SightEach(venue, Apply(venue, b, commands[0]), commands[1..]);
    }
  }

  /** Store independence: one venue with a price band, one run of commands on the
      tick, three books that differ in nothing but the store. After every command
      the caller has been told the same and sees the same touch and levels. */
  method SameFromEveryStore(venue: Venue, room: nat, commands: seq<Command>)
    returns (fromTree: seq<Sight>, fromHash: seq<Sight>, fromLadder: seq<Sight>)
    requires venue.Valid() && LadderFits(venue.spec, room)
    requires AllLegal(venue, commands) && AllOnTick(venue.spec, commands)
    ensures |fromTree| == |commands| && fromTree == fromHash == fromLadder
  {
    hide WellFormed;
    fromTree := WatchOver(venue, Ordered, room, commands);
    fromHash := WatchOver(venue, Hashed, room, commands);
    fromLadder := WatchOver(venue, Laddered, room, commands);
    SightEach(venue, EMPTY, commands);
  }
}
