/** The book's physical tables — level queues of arena keys, the arena, the id
    index, the stop books — and what it means for them to agree. */
module Ownership {
  import opened Instrument
  import opened Orders
  import opened Book
  import opened SweepFacts
  import opened LevelFacts
  import opened Engine

  type Key = nat

  /** A level as the store holds it: its queue is a sequence of arena keys. */
  datatype KeyLevel = KeyLevel(price: Price, keys: seq<Key>)

  /** Where a live order physically is. */
  datatype Address = InBook(side: Side, price: Price, key: Key) | InStops(side: Side, trigger: Price)

  datatype Tables = Tables(
    bids: seq<KeyLevel>,
    asks: seq<KeyLevel>,
    nodes: map<Key, Order>,
    index: map<ExchangeId, Address>,
    stopBids: seq<PriceLevel>,
    stopAsks: seq<PriceLevel>)
  {
    function Levels(side: Side): seq<KeyLevel> {
      if side == Bid then bids else asks
    }

    function WithLevels(side: Side, levels: seq<KeyLevel>): Tables {
      if side == Bid then this.(bids := levels) else this.(asks := levels)
    }

    function Stops(side: Side): seq<PriceLevel> {
      if side == Bid then stopBids else stopAsks
    }

    function WithStops(side: Side, stops: seq<PriceLevel>): Tables {
      if side == Bid then this.(stopBids := stops) else this.(stopAsks := stops)
    }
  }

  // ------------------------------------------------------------- agreement

  /** The node a key stands for is at the side and price its queue is at. */
  ghost predicate Placed(nodes: map<Key, Order>, side: Side, price: Price, key: Key) {
    key in nodes && nodes[key].side == side && nodes[key].kind.Limit? && nodes[key].kind.price == price
  }

  ghost predicate QueuePlaced(nodes: map<Key, Order>, side: Side, level: KeyLevel) {
    && (forall j :: 0 <= j < |level.keys| ==> Placed(nodes, side, level.price, level.keys[j]))
    && (forall i, j :: 0 <= i < j < |level.keys| ==> level.keys[i] != level.keys[j])
  }

  ghost predicate SidePlaced(nodes: map<Key, Order>, side: Side, levels: seq<KeyLevel>) {
    forall i :: 0 <= i < |levels| ==> QueuePlaced(nodes, side, levels[i])
  }

  ghost predicate Queued(levels: seq<KeyLevel>, price: Price, key: Key) {
    exists i :: 0 <= i < |levels| && levels[i].price == price && key in levels[i].keys
  }

  /** Every arena node is in a queue of its own side and price, and the index
      says so under its id. */
  ghost predicate NodeOwned(t: Tables, key: Key)
    requires key in t.nodes
  {
    var order := t.nodes[key];
    && order.kind.Limit?
    && Queued(t.Levels(order.side), order.kind.price, key)
    && order.id in t.index && t.index[order.id] == InBook(order.side, order.kind.price, key)
  }

  ghost predicate Holds(level: PriceLevel, trigger: Price, id: ExchangeId) {
    level.price == trigger && id in IdBag(level.orders)
  }

  ghost predicate ParkedAt(stops: seq<PriceLevel>, trigger: Price, id: ExchangeId) {
    exists i :: 0 <= i < |stops| && Holds(stops[i], trigger, id)
  }

  ghost predicate LevelIndexed(index: map<ExchangeId, Address>, side: Side, level: PriceLevel) {
    forall id :: id in IdBag(level.orders) ==> id in index && index[id] == InStops(side, level.price)
  }

  /** Every parked stop is where the index says it is. */
  ghost predicate StopsIndexed(index: map<ExchangeId, Address>, side: Side, stops: seq<PriceLevel>) {
    forall i :: 0 <= i < |stops| ==> LevelIndexed(index, side, stops[i])
  }

  /** Every index entry leads to a live order with that id. */
  ghost predicate EntryTrue(t: Tables, id: ExchangeId)
    requires id in t.index
  {
    match t.index[id]
    case InBook(side, price, key) => key in t.nodes && t.nodes[key].id == id
    case InStops(side, trigger) => ParkedAt(t.Stops(side), trigger, id)
  }

  ghost predicate NodesOwned(t: Tables) {
    forall key :: key in t.nodes ==> NodeOwned(t, key)
  }

  ghost predicate IndexTrue(t: Tables) {
    forall id :: id in t.index ==> EntryTrue(t, id)
  }

  /** The ownership relation: arena nodes, queue entries and parked stops on one
      side, index entries on the other, one to one. */
  ghost predicate Owns(t: Tables) {
    && SidePlaced(t.nodes, Bid, t.bids)
    && SidePlaced(t.nodes, Ask, t.asks)
    && NodesOwned(t)
    && StopsIndexed(t.index, Bid, t.stopBids)
    && StopsIndexed(t.index, Ask, t.stopAsks)
    && IndexTrue(t)
  }

  /** What the tables show: the orders behind the keys of each queue. */
  ghost predicate Resolves(keys: seq<Key>, nodes: map<Key, Order>, orders: seq<Order>) {
    && |keys| == |orders|
    && forall j :: 0 <= j < |keys| ==> keys[j] in nodes && nodes[keys[j]] == orders[j]
  }

  ghost predicate LevelShows(level: KeyLevel, nodes: map<Key, Order>, shown: PriceLevel) {
    level.price == shown.price && Resolves(level.keys, nodes, shown.orders)
  }

  ghost predicate SideShows(levels: seq<KeyLevel>, nodes: map<Key, Order>, shown: seq<PriceLevel>) {
    && |levels| == |shown|
    && forall i :: 0 <= i < |levels| ==> LevelShows(levels[i], nodes, shown[i])
  }

  ghost predicate Shows(t: Tables, b: Book) {
    && SideShows(t.bids, t.nodes, b.bids)
    && SideShows(t.asks, t.nodes, b.asks)
    && t.stopBids == b.stopBids
    && t.stopAsks == b.stopAsks
  }

  // --------------------------------------------------- the index is the book

  lemma {:induction false} ListedSomewhere(levels: seq<PriceLevel>, id: ExchangeId)
    requires id in Ids(levels)
    ensures exists i :: 0 <= i < |levels| && id in IdBag(levels[i].orders)
  {
    if id in IdBag(levels[0].orders) {
    } else {
      ListedSomewhere(levels[1..], id);
      var i :| 0 <= i < |levels[1..]| && id in IdBag(levels[1..][i].orders);
      assert id in IdBag(levels[i + 1].orders);
    }
  }

  lemma SideIsIndexed(t: Tables, side: Side, shown: seq<PriceLevel>, id: ExchangeId)
    requires Owns(t) && SideShows(t.Levels(side), t.nodes, shown) && id in Ids(shown)
    ensures id in t.index && t.index[id].InBook? && t.index[id].side == side
    ensures t.index[id].key in t.nodes && t.nodes[t.index[id].key].id == id
  {
    ListedSomewhere(shown, id);
    var i :| 0 <= i < |shown| && id in IdBag(shown[i].orders);
    var j := CountedAt(shown[i].orders, id);
    var key := t.Levels(side)[i].keys[j];
    assert LevelShows(t.Levels(side)[i], t.nodes, shown[i]);
    assert QueuePlaced(t.nodes, side, t.Levels(side)[i]);
    assert NodeOwned(t, key);
  }

  lemma StopsAreIndexed(index: map<ExchangeId, Address>, side: Side, stops: seq<PriceLevel>, id: ExchangeId)
    requires StopsIndexed(index, side, stops) && id in Ids(stops)
    ensures id in index && index[id].InStops? && index[id].side == side
  {
    hide Ids, IdBag;
    ListedSomewhere(stops, id);
    var i :| 0 <= i < |stops| && id in IdBag(stops[i].orders);
    assert LevelIndexed(index, side, stops[i]);
  }

  lemma NodeIsShown(t: Tables, b: Book, key: Key)
    requires Owns(t) && Shows(t, b) && key in t.nodes
    ensures t.nodes[key].id in Ids(b.Levels(t.nodes[key].side))
  {
    var order := t.nodes[key];
    assert NodeOwned(t, key);
    var i :| 0 <= i < |t.Levels(order.side)| && t.Levels(order.side)[i].price == order.kind.price
             && key in t.Levels(order.side)[i].keys;
    var level, shown := t.Levels(order.side)[i], b.Levels(order.side)[i];
    assert LevelShows(level, t.nodes, shown);
    var j :| 0 <= j < |level.keys| && level.keys[j] == key;
    IdIsListed(b.Levels(order.side), i, j);
  }

  lemma LiveIsIndexed(t: Tables, b: Book, id: ExchangeId)
    requires Owns(t) && Shows(t, b) && id in LiveIds(b)
    ensures id in t.index
  {
    hide SidePlaced, NodeOwned, SideShows, Ids, StopsIndexed, EntryTrue;
    if id in Ids(b.bids) {
      SideIsIndexed(t, Bid, b.bids, id);
    } else if id in Ids(b.asks) {
      SideIsIndexed(t, Ask, b.asks, id);
    } else if id in Ids(b.stopBids) {
      StopsAreIndexed(t.index, Bid, t.stopBids, id);
    } else {
      StopsAreIndexed(t.index, Ask, t.stopAsks, id);
    }
  }

  lemma IndexedIsLive(t: Tables, b: Book, id: ExchangeId)
    requires Owns(t) && Shows(t, b) && id in t.index
    ensures id in LiveIds(b)
  {
    hide SidePlaced, NodeOwned, SideShows, Ids, IdBag, StopsIndexed;
    match t.index[id]
    case InBook(side, price, key) =>
      NodeIsShown(t, b, key);
    case InStops(side, trigger) =>
      var i :| 0 <= i < |t.Stops(side)| && Holds(t.Stops(side)[i], trigger, id);
      ListedBehind(t.Stops(side), i, id);
  }

  /** The index holds exactly the ids that are alive. */
  lemma IndexIsLive(t: Tables, b: Book)
    requires Owns(t) && Shows(t, b)
    ensures forall id :: id in t.index <==> id in LiveIds(b)
  {
    hide Owns, Shows, LiveIds;
    forall id
      ensures id in t.index <==> id in LiveIds(b)
    {
      if id in LiveIds(b) {
        LiveIsIndexed(t, b, id);
      }
      if id in t.index {
        IndexedIsLive(t, b, id);
      }
    }
  }

  /** Where in the queues a key is. */
  ghost predicate Sits(t: Tables, key: Key, side: Side, i: nat, j: nat) {
    i < |t.Levels(side)| && j < |t.Levels(side)[i].keys| && t.Levels(side)[i].keys[j] == key
  }

  ghost predicate SitsAt(t: Tables, key: Key, side: Side, i: nat, j: nat, price: Price) {
    Sits(t, key, side, i, j) && t.Levels(side)[i].price == price
  }

  /** Queue entries are live nodes at their own side and price. */
  lemma SitsPlaced(t: Tables, key: Key, side: Side, i: nat, j: nat)
    requires Owns(t) && Sits(t, key, side, i, j)
    ensures key in t.nodes && t.nodes[key].side == side
    ensures t.nodes[key].kind.Limit? && t.nodes[key].kind.price == t.Levels(side)[i].price
    ensures forall m :: 0 <= m < |t.Levels(side)[i].keys| && m != j ==> t.Levels(side)[i].keys[m] != key
  {
    hide NodesOwned, IndexTrue, StopsIndexed;
    assert QueuePlaced(t.nodes, side, t.Levels(side)[i]);
    assert Placed(t.nodes, side, t.Levels(side)[i].price, t.Levels(side)[i].keys[j]);
  }

  /** Every arena node is in exactly one place of exactly one queue, that of its
      own side and price. */
  lemma EveryNodeSitsOnce(t: Tables, b: Book, spec: InstrumentSpec, key: Key)
    requires Owns(t) && Shows(t, b) && spec.lotSize > 0 && WellFormed(spec, b) && key in t.nodes
    ensures t.nodes[key].kind.Limit?
    ensures exists i: nat, j: nat :: SitsAt(t, key, t.nodes[key].side, i, j, t.nodes[key].kind.price)
    ensures forall side, i: nat, j: nat, other, k: nat, l: nat ::
              Sits(t, key, side, i, j) && Sits(t, key, other, k, l) ==> side == other && i == k && j == l
  {
    assert NodeOwned(t, key);
    hide WellFormed, Owns, Shows;
    var side, price := t.nodes[key].side, t.nodes[key].kind.price;
    ShowsDistinct(t, b, spec, side);
    var q :| 0 <= q < |t.Levels(side)| && t.Levels(side)[q].price == price && key in t.Levels(side)[q].keys;
    var p :| 0 <= p < |t.Levels(side)[q].keys| && t.Levels(side)[q].keys[p] == key;
    assert SitsAt(t, key, side, q, p, price);
    forall s, i: nat, j: nat | Sits(t, key, s, i, j)
      ensures s == side && i == q && j == p
    {
      SitsPlaced(t, key, s, i, j);
    }
  }

  /** Nodes and parked stops on one side, index entries on the other, one to one:
      no two nodes share an id, a node's id leads to that node, a parked stop's id
      to its trigger, and every entry leads somewhere. */
  lemma OwnershipIsOneToOne(t: Tables)
    requires Owns(t)
    ensures forall k, l :: k in t.nodes && l in t.nodes && t.nodes[k].id == t.nodes[l].id ==> k == l
    ensures forall k :: k in t.nodes ==>
              && t.nodes[k].kind.Limit? && t.nodes[k].id in t.index
              && t.index[t.nodes[k].id] == InBook(t.nodes[k].side, t.nodes[k].kind.price, k)
    ensures forall side, i, id :: 0 <= i < |t.Stops(side)| && id in IdBag(t.Stops(side)[i].orders) ==>
              id in t.index && t.index[id] == InStops(side, t.Stops(side)[i].price)
    ensures forall id :: id in t.index ==> EntryTrue(t, id)
  {
    hide SidePlaced, Queued, IdBag, EntryTrue;
    forall k | k in t.nodes
      ensures t.nodes[k].kind.Limit? && t.nodes[k].id in t.index
      ensures t.index[t.nodes[k].id] == InBook(t.nodes[k].side, t.nodes[k].kind.price, k)
    {
      assert NodeOwned(t, k);
    }
    forall side, i, id | 0 <= i < |t.Stops(side)| && id in IdBag(t.Stops(side)[i].orders)
      ensures id in t.index && t.index[id] == InStops(side, t.Stops(side)[i].price)
    {
      assert LevelIndexed(t.index, side, t.Stops(side)[i]);
    }
  }

  // ---------------------------------------------------------- how many there are

  lemma {:induction false} BagSize(orders: seq<Order>)
    ensures |IdBag(orders)| == |orders|
  {
    if orders != [] {
      BagSize(orders[..|orders| - 1]);
    }
  }

  lemma {:induction false} IdsSize(levels: seq<PriceLevel>)
    ensures |Ids(levels)| == Parked(levels)
  {
    if levels != [] {
      BagSize(levels[0].orders);
      IdsSize(levels[1..]);
    }
  }

  /** A bag without repeats is as large as the set of what is in it. */
  lemma {:induction false} DistinctSize(ids: multiset<ExchangeId>, members: set<ExchangeId>)
    requires Distinct(ids) && forall id :: id in ids <==> id in members
    ensures |ids| == |members|
    decreases |members|
  {
    if members != {} {
      var id :| id in members;
      var fewer := ids - multiset{id};
      assert ids[id] == 1 && ids == fewer + multiset{id};
      FewerIds(fewer, ids);
      DistinctSize(fewer, members - {id});
    } else {
      assert forall id :: id !in ids;
      assert ids == multiset{};
    }
  }

  ghost function NodeIds(nodes: map<Key, Order>, keys: set<Key>): set<ExchangeId>
    requires keys <= nodes.Keys
  {
    set k | k in keys :: nodes[k].id
  }

  lemma {:induction false} NodeIdsSize(nodes: map<Key, Order>, keys: set<Key>)
    requires keys <= nodes.Keys
    requires forall k, l :: k in nodes && l in nodes && nodes[k].id == nodes[l].id ==> k == l
    ensures |NodeIds(nodes, keys)| == |keys|
  {
    if keys != {} {
      var k :| k in keys;
      NodeIdsSize(nodes, keys - {k});
      assert NodeIds(nodes, keys) == NodeIds(nodes, keys - {k}) + {nodes[k].id};
    }
  }

  lemma RestingIsNode(t: Tables, b: Book, id: ExchangeId)
    requires Owns(t) && Shows(t, b)
    ensures id in Ids(b.bids) + Ids(b.asks) <==> id in NodeIds(t.nodes, t.nodes.Keys)
  {
    hide SidePlaced, NodeOwned, SideShows, Ids, StopsIndexed, EntryTrue;
    if id in Ids(b.bids) {
      SideIsIndexed(t, Bid, b.bids, id);
    } else if id in Ids(b.asks) {
      SideIsIndexed(t, Ask, b.asks, id);
    }
    if k :| k in t.nodes && t.nodes[k].id == id {
      NodeIsShown(t, b, k);
    }
  }

  /** One node for every resting order, one entry for every live one. */
  lemma CountsAgree(t: Tables, b: Book, spec: InstrumentSpec)
    requires Owns(t) && Shows(t, b) && spec.lotSize > 0 && WellFormed(spec, b)
    ensures |t.nodes| == Parked(b.bids) + Parked(b.asks)
    ensures |t.index| == |t.nodes| + Pending(b)
  {
    assert Distinct(LiveIds(b));
    OwnershipIsOneToOne(t);
    IndexIsLive(t, b);
    hide Owns, Shows, WellFormed, Ids, Parked, NodeIds, EntryTrue, Distinct;
    IdsSize(b.bids);
    IdsSize(b.asks);
    IdsSize(b.stopBids);
    IdsSize(b.stopAsks);
    DistinctSize(LiveIds(b), t.index.Keys);
    var resting := Ids(b.bids) + Ids(b.asks);
    FewerIds(resting, LiveIds(b));
    forall id
      ensures id in resting <==> id in NodeIds(t.nodes, t.nodes.Keys)
    {
      RestingIsNode(t, b, id);
    }
    DistinctSize(resting, NodeIds(t.nodes, t.nodes.Keys));
    NodeIdsSize(t.nodes, t.nodes.Keys);
  }

  // --------------------------------------------------------- dropping a node

  /** The queue without the keys in `dead`, order kept. */
  function Keep(keys: seq<Key>, dead: set<Key>): seq<Key> {
    if keys == [] then []
    else
      var n := |keys| - 1;
      var front := Keep(keys[..n], dead);
      if keys[n] in dead then front else front + [keys[n]]
  }

  lemma {:induction false} KeepMembers(keys: seq<Key>, dead: set<Key>)
    ensures forall key :: key in Keep(keys, dead) <==> key in keys && key !in dead
    ensures (forall i, j :: 0 <= i < j < |keys| ==> keys[i] != keys[j]) ==>
            (forall i, j :: 0 <= i < j < |Keep(keys, dead)| ==> Keep(keys, dead)[i] != Keep(keys, dead)[j])
  {
    if keys != [] {
      KeepMembers(keys[..|keys| - 1], dead);
      assert keys == keys[..|keys| - 1] + [keys[|keys| - 1]];
    }
  }

  lemma {:induction false} KeepTwice(keys: seq<Key>, dead: set<Key>, key: Key)
    ensures Keep(Keep(keys, dead), {key}) == Keep(keys, dead + {key})
  {
    if keys != [] {
      var n := |keys| - 1;
      KeepTwice(keys[..n], dead, key);
      var front := Keep(keys[..n], dead);
      if keys[n] !in dead {
        assert (front + [keys[n]])[..|front|] == front;
      }
    }
  }

  lemma {:induction false} KeepAll(keys: seq<Key>)
    ensures Keep(keys, {}) == keys
  {
    if keys != [] {
      KeepAll(keys[..|keys| - 1]);
    }
  }

  /** The queue at one price without one key; other queues as they are. */
  function DropKey(levels: seq<KeyLevel>, price: Price, key: Key): (after: seq<KeyLevel>)
    ensures |after| == |levels|
    ensures forall i :: 0 <= i < |levels| ==> after[i].price == levels[i].price
    ensures forall i :: 0 <= i < |levels| ==>
              after[i].keys == if levels[i].price == price then Keep(levels[i].keys, {key}) else levels[i].keys
  {
    seq(|levels|, i requires 0 <= i < |levels| =>
      if levels[i].price == price then KeyLevel(price, Keep(levels[i].keys, {key})) else levels[i])
  }

  /** One node unlinked from its queue, freed, and forgotten by the index. */
  function DropNode(t: Tables, key: Key): Tables
    requires key in t.nodes && t.nodes[key].kind.Limit?
  {
    var order := t.nodes[key];
    t.WithLevels(order.side, DropKey(t.Levels(order.side), order.kind.price, key))
     .(nodes := t.nodes - {key}, index := t.index - {order.id})
  }

  lemma DropSidePlaced(nodes: map<Key, Order>, side: Side, levels: seq<KeyLevel>, price: Price, key: Key)
    requires SidePlaced(nodes, side, levels)
    requires key in nodes && (nodes[key].side == side ==> nodes[key].kind.Limit? && nodes[key].kind.price == price)
    ensures nodes[key].side == side ==> SidePlaced(nodes - {key}, side, DropKey(levels, price, key))
    ensures nodes[key].side != side ==> SidePlaced(nodes - {key}, side, levels)
  {
    forall i | 0 <= i < |levels|
      ensures nodes[key].side == side ==> QueuePlaced(nodes - {key}, side, DropKey(levels, price, key)[i])
      ensures nodes[key].side != side ==> QueuePlaced(nodes - {key}, side, levels[i])
    {
      assert QueuePlaced(nodes, side, levels[i]);
      KeepMembers(levels[i].keys, {key});
      var kept := DropKey(levels, price, key)[i].keys;
      forall j | nodes[key].side == side && 0 <= j < |kept|
        ensures Placed(nodes - {key}, side, levels[i].price, kept[j])
      {
        assert kept[j] in levels[i].keys;
      }
    }
  }

  lemma DropStaysQueued(levels: seq<KeyLevel>, price: Price, key: Key, at: Price, other: Key)
    requires Queued(levels, at, other) && other != key
    ensures Queued(DropKey(levels, price, key), at, other)
  {
    var i :| 0 <= i < |levels| && levels[i].price == at && other in levels[i].keys;
    KeepMembers(levels[i].keys, {key});
    assert DropKey(levels, price, key)[i].price == at && other in DropKey(levels, price, key)[i].keys;
  }

  lemma DropNodeOwned(t: Tables, key: Key, other: Key)
    requires key in t.nodes && other in t.nodes && other != key
    requires NodeOwned(t, key) && NodeOwned(t, other)
    ensures NodeOwned(DropNode(t, key), other)
  {
    var order, gone := t.nodes[other], t.nodes[key];
    if order.side == gone.side {
      DropStaysQueued(t.Levels(order.side), gone.kind.price, key, order.kind.price, other);
    }
  }

  /** Unlinking, freeing and forgetting one node together keep the relation. */
  lemma DropNodeOwns(t: Tables, key: Key)
    requires Owns(t) && key in t.nodes
    ensures t.nodes[key].kind.Limit?
    ensures Owns(DropNode(t, key))
  {
    assert NodeOwned(t, key);
    DropNodesOwned(t, key);
    hide NodeOwned, SidePlaced, StopsIndexed, EntryTrue, IndexTrue, NodesOwned;
    DropSidesPlaced(t, key);
    DropNodeStops(t, key);
    DropIndexTrue(t, key);
  }

  lemma DropNodesOwned(t: Tables, key: Key)
    requires NodesOwned(t) && key in t.nodes && t.nodes[key].kind.Limit?
    ensures NodesOwned(DropNode(t, key))
  {
    assert NodeOwned(t, key);
    hide NodeOwned;
    forall other | other in DropNode(t, key).nodes
      ensures NodeOwned(DropNode(t, key), other)
    {
      DropNodeOwned(t, key, other);
    }
  }

  lemma DropTables(t: Tables, key: Key)
    requires key in t.nodes && t.nodes[key].kind.Limit?
    ensures var after := DropNode(t, key);
            && after.nodes == t.nodes - {key} && after.index == t.index - {t.nodes[key].id}
            && after.stopBids == t.stopBids && after.stopAsks == t.stopAsks
            && after.Levels(t.nodes[key].side) == DropKey(t.Levels(t.nodes[key].side), t.nodes[key].kind.price, key)
            && after.Levels(Opposite(t.nodes[key].side)) == t.Levels(Opposite(t.nodes[key].side))
  {}

  lemma DropIndexTrue(t: Tables, key: Key)
    requires IndexTrue(t) && key in t.nodes && t.nodes[key].kind.Limit?
    ensures IndexTrue(DropNode(t, key))
  {
    hide ParkedAt, DropNode;
    DropTables(t, key);
    forall id | id in DropNode(t, key).index
      ensures EntryTrue(DropNode(t, key), id)
    {
      assert EntryTrue(t, id);
    }
  }

  lemma DropSidesPlaced(t: Tables, key: Key)
    requires Owns(t) && key in t.nodes && t.nodes[key].kind.Limit?
    ensures SidePlaced(DropNode(t, key).nodes, Bid, DropNode(t, key).bids)
    ensures SidePlaced(DropNode(t, key).nodes, Ask, DropNode(t, key).asks)
  {
    hide SidePlaced, NodeOwned, StopsIndexed, EntryTrue;
    DropSidePlaced(t.nodes, Bid, t.bids, t.nodes[key].kind.price, key);
    DropSidePlaced(t.nodes, Ask, t.asks, t.nodes[key].kind.price, key);
  }

  lemma DropNodeStops(t: Tables, key: Key)
    requires Owns(t) && key in t.nodes && t.nodes[key].kind.Limit?
    ensures StopsIndexed(DropNode(t, key).index, Bid, t.stopBids)
    ensures StopsIndexed(DropNode(t, key).index, Ask, t.stopAsks)
  {
    hide SidePlaced, IdBag, EntryTrue, Queued, DropKey, StopsIndexed;
    assert NodeOwned(t, key);
    OthersStayIndexed(t.index, Bid, t.stopBids, t.nodes[key].id);
    OthersStayIndexed(t.index, Ask, t.stopAsks, t.nodes[key].id);
  }

  lemma OthersStayIndexed(index: map<ExchangeId, Address>, side: Side, stops: seq<PriceLevel>, gone: ExchangeId)
    requires StopsIndexed(index, side, stops) && gone in index && index[gone].InBook?
    ensures StopsIndexed(index - {gone}, side, stops)
  {
    hide IdBag;
    forall i | 0 <= i < |stops|
      ensures LevelIndexed(index - {gone}, side, stops[i])
    {
      assert LevelIndexed(index, side, stops[i]);
    }
  }

  // ---------------------------------------------------------- other changes

  /** Filling an order in place changes nothing about who owns it. */
  lemma FillOwns(t: Tables, key: Key, remaining: nat)
    requires Owns(t) && key in t.nodes
    ensures Owns(Refilled(t, key, remaining))
  {
    FillNodesOwned(t, key, remaining);
    FillIndexTrue(t, key, remaining);
    hide SidePlaced, StopsIndexed, IndexTrue, NodesOwned;
    FillPlaced(t.nodes, Bid, t.bids, key, remaining);
    FillPlaced(t.nodes, Ask, t.asks, key, remaining);
  }

  function Refilled(t: Tables, key: Key, remaining: nat): Tables
    requires key in t.nodes
  {
    t.(nodes := t.nodes[key := t.nodes[key].(remaining := remaining)])
  }

  lemma FillNodesOwned(t: Tables, key: Key, remaining: nat)
    requires NodesOwned(t) && key in t.nodes
    ensures NodesOwned(Refilled(t, key, remaining))
  {
    hide Queued;
    forall other | other in t.nodes
      ensures NodeOwned(Refilled(t, key, remaining), other)
    {
      assert NodeOwned(t, other);
    }
  }

  lemma FillIndexTrue(t: Tables, key: Key, remaining: nat)
    requires IndexTrue(t) && key in t.nodes
    ensures IndexTrue(Refilled(t, key, remaining))
  {
    hide ParkedAt;
    forall id | id in t.index
      ensures EntryTrue(Refilled(t, key, remaining), id)
    {
      assert EntryTrue(t, id);
    }
  }

  lemma FillPlaced(nodes: map<Key, Order>, side: Side, levels: seq<KeyLevel>, key: Key, remaining: nat)
    requires SidePlaced(nodes, side, levels) && key in nodes
    ensures SidePlaced(nodes[key := nodes[key].(remaining := remaining)], side, levels)
  {
    var after := nodes[key := nodes[key].(remaining := remaining)];
    forall i | 0 <= i < |levels|
      ensures QueuePlaced(after, side, levels[i])
    {
      assert QueuePlaced(nodes, side, levels[i]);
      assert forall j :: 0 <= j < |levels[i].keys| ==> Placed(nodes, side, levels[i].price, levels[i].keys[j]);
    }
  }

  /** The store without the level at one price, if it has drained. */
  function RemoveEmpty(levels: seq<KeyLevel>, price: Price): seq<KeyLevel> {
    if levels == [] then []
    else if levels[0].price == price then (if levels[0].keys == [] then levels[1..] else levels)
    else [levels[0]] + RemoveEmpty(levels[1..], price)
  }

  lemma {:induction false} RemoveEmptyPlaced(nodes: map<Key, Order>, side: Side, levels: seq<KeyLevel>, price: Price)
    requires SidePlaced(nodes, side, levels)
    ensures SidePlaced(nodes, side, RemoveEmpty(levels, price))
  {
    hide QueuePlaced;
    if levels != [] && levels[0].price != price {
      RemoveEmptyPlaced(nodes, side, levels[1..], price);
    }
  }

  lemma {:induction false} RemoveEmptyQueued(levels: seq<KeyLevel>, gone: Price, price: Price, key: Key)
    requires Queued(levels, price, key)
    ensures Queued(RemoveEmpty(levels, gone), price, key)
  {
    var i :| 0 <= i < |levels| && levels[i].price == price && key in levels[i].keys;
    if levels[0].price == gone {
      if levels[0].keys == [] {
        assert levels[1..][i - 1] == levels[i];
      }
    } else {
      var after := RemoveEmpty(levels, gone);
      if i == 0 {
        assert after[0] == levels[0];
      } else {
        assert levels[1..][i - 1] == levels[i];
        RemoveEmptyQueued(levels[1..], gone, price, key);
        var rest := RemoveEmpty(levels[1..], gone);
        var k :| 0 <= k < |rest| && rest[k].price == price && key in rest[k].keys;
        assert after[k + 1] == rest[k];
      }
    }
  }

  /** A drained level can go. */
  lemma RemoveEmptyOwns(t: Tables, side: Side, price: Price)
    requires Owns(t)
    ensures Owns(t.WithLevels(side, RemoveEmpty(t.Levels(side), price)))
  {
    RemoveEmptyNodes(t, side, price);
    RemoveEmptyIndex(t, side, price);
    hide StopsIndexed, NodesOwned, IndexTrue, SidePlaced;
    RemoveEmptyPlaced(t.nodes, side, t.Levels(side), price);
  }

  lemma RemoveEmptyNodes(t: Tables, side: Side, price: Price)
    requires NodesOwned(t)
    ensures NodesOwned(t.WithLevels(side, RemoveEmpty(t.Levels(side), price)))
  {
    hide Queued, RemoveEmpty;
    forall key | key in t.nodes
      ensures NodeOwned(t.WithLevels(side, RemoveEmpty(t.Levels(side), price)), key)
    {
      assert NodeOwned(t, key);
      if t.nodes[key].side == side {
        RemoveEmptyQueued(t.Levels(side), price, t.nodes[key].kind.price, key);
      }
    }
  }

  lemma RemoveEmptyIndex(t: Tables, side: Side, price: Price)
    requires IndexTrue(t)
    ensures IndexTrue(t.WithLevels(side, RemoveEmpty(t.Levels(side), price)))
  {
    hide ParkedAt, RemoveEmpty;
    forall id | id in t.index
      ensures EntryTrue(t.WithLevels(side, RemoveEmpty(t.Levels(side), price)), id)
    {
      assert EntryTrue(t, id);
    }
  }

  // -------------------------------------------------------------- inserting

  /** A key at the back of the queue at one price, the level made if missing. */
  function Enqueue(ascending: bool, levels: seq<KeyLevel>, price: Price, key: Key): seq<KeyLevel> {
    if levels == [] then [KeyLevel(price, [key])]
    else if levels[0].price == price then [KeyLevel(price, levels[0].keys + [key])] + levels[1..]
    else if Before(ascending, price, levels[0].price) then [KeyLevel(price, [key])] + levels
    else [levels[0]] + Enqueue(ascending, levels[1..], price, key)
  }

  /** A fresh node filed under its id at the back of its queue. */
  function FileNode(t: Tables, key: Key, order: Order): Tables
    requires order.kind.Limit?
  {
    t.WithLevels(order.side, Enqueue(RestsAscending(order.side), t.Levels(order.side), order.kind.price, key))
     .(nodes := t.nodes[key := order], index := t.index[order.id := InBook(order.side, order.kind.price, key)])
  }

  lemma {:induction false} EnqueuePlaced(nodes: map<Key, Order>, ascending: bool, levels: seq<KeyLevel>, key: Key,
                                         order: Order)
    requires SidePlaced(nodes, order.side, levels) && key !in nodes && order.kind.Limit?
    ensures SidePlaced(nodes[key := order], order.side, Enqueue(ascending, levels, order.kind.price, key))
  {
    MorePlaced(nodes, order.side, levels, key, order);
    if levels != [] {
      if levels[0].price == order.kind.price {
        assert QueuePlaced(nodes, order.side, levels[0]);
        assert QueuePlaced(nodes[key := order], order.side, KeyLevel(order.kind.price, levels[0].keys + [key]));
      } else if !Before(ascending, order.kind.price, levels[0].price) {
        EnqueuePlaced(nodes, ascending, levels[1..], key, order);
      }
    }
  }

  lemma MorePlaced(nodes: map<Key, Order>, side: Side, levels: seq<KeyLevel>, key: Key, order: Order)
    requires SidePlaced(nodes, side, levels) && key !in nodes
    ensures SidePlaced(nodes[key := order], side, levels)
  {
    forall i | 0 <= i < |levels|
      ensures QueuePlaced(nodes[key := order], side, levels[i])
    {
      assert QueuePlaced(nodes, side, levels[i]);
      assert forall j :: 0 <= j < |levels[i].keys| ==> Placed(nodes, side, levels[i].price, levels[i].keys[j]);
    }
  }

  lemma {:induction false} EnqueueQueued(ascending: bool, levels: seq<KeyLevel>, price: Price, key: Key)
    ensures Queued(Enqueue(ascending, levels, price, key), price, key)
    ensures forall at, other :: Queued(levels, at, other) ==> Queued(Enqueue(ascending, levels, price, key), at, other)
  {
    var after := Enqueue(ascending, levels, price, key);
    if levels == [] || levels[0].price == price || Before(ascending, price, levels[0].price) {
      assert after[0].price == price && key in after[0].keys;
      forall at, other | Queued(levels, at, other)
        ensures Queued(after, at, other)
      {
        var i :| 0 <= i < |levels| && levels[i].price == at && other in levels[i].keys;
        assert |after| == |levels| ==> after[i].price == at && other in after[i].keys;
        assert |after| == |levels| + 1 ==> after[i + 1] == levels[i];
      }
    } else {
      EnqueueQueued(ascending, levels[1..], price, key);
      var rest := Enqueue(ascending, levels[1..], price, key);
      forall at, other | Queued(rest, at, other)
        ensures Queued(after, at, other)
      {
        QueuedBehind(levels[0], rest, at, other);
      }
      forall at, other | Queued(levels, at, other)
        ensures Queued(after, at, other)
      {
        var i :| 0 <= i < |levels| && levels[i].price == at && other in levels[i].keys;
        if i == 0 {
          assert after[0] == levels[0];
        } else {
          assert levels[1..][i - 1] == levels[i];
          assert Queued(levels[1..], at, other);
        }
      }
    }
  }

  lemma QueuedBehind(head: KeyLevel, rest: seq<KeyLevel>, price: Price, key: Key)
    requires Queued(rest, price, key)
    ensures Queued([head] + rest, price, key)
  {
    var i :| 0 <= i < |rest| && rest[i].price == price && key in rest[i].keys;
    assert ([head] + rest)[i + 1] == rest[i];
  }

  lemma {:induction false} EnqueueShows(nodes: map<Key, Order>, ascending: bool, levels: seq<KeyLevel>,
                                        shown: seq<PriceLevel>, price: Price, key: Key, order: Order)
    requires SideShows(levels, nodes, shown) && key !in nodes
    ensures SideShows(Enqueue(ascending, levels, price, key), nodes[key := order],
                      Insert(ascending, shown, price, order))
  {
    MoreShows(nodes, levels, shown, key, order);
    if levels != [] {
      if levels[0].price == price {
        assert LevelShows(levels[0], nodes, shown[0]);
      } else if !Before(ascending, price, levels[0].price) {
        EnqueueShows(nodes, ascending, levels[1..], shown[1..], price, key, order);
        ShowsCons(levels[0], Enqueue(ascending, levels[1..], price, key), nodes[key := order], shown[0],
                  Insert(ascending, shown[1..], price, order));
      }
    }
  }

  lemma ShowsCons(level: KeyLevel, levels: seq<KeyLevel>, nodes: map<Key, Order>, first: PriceLevel,
                  shown: seq<PriceLevel>)
    requires LevelShows(level, nodes, first) && SideShows(levels, nodes, shown)
    ensures SideShows([level] + levels, nodes, [first] + shown)
  {}

  lemma MoreShows(nodes: map<Key, Order>, levels: seq<KeyLevel>, shown: seq<PriceLevel>, key: Key, order: Order)
    requires SideShows(levels, nodes, shown) && key !in nodes
    ensures SideShows(levels, nodes[key := order], shown)
  {
    forall i | 0 <= i < |levels|
      ensures LevelShows(levels[i], nodes[key := order], shown[i])
    {
      assert LevelShows(levels[i], nodes, shown[i]);
    }
  }

  /** Filing a fresh node under a free id keeps the relation. */
  lemma FileNodeOwns(t: Tables, key: Key, order: Order)
    requires Owns(t) && key !in t.nodes && order.kind.Limit? && order.id !in t.index
    ensures Owns(FileNode(t, key, order))
  {
    FileNodesOwned(t, key, order);
    FileIndexTrue(t, key, order);
    FreshStaysIndexed(t.index, Bid, t.stopBids, order.id, InBook(order.side, order.kind.price, key));
    FreshStaysIndexed(t.index, Ask, t.stopAsks, order.id, InBook(order.side, order.kind.price, key));
    hide StopsIndexed, NodesOwned, IndexTrue, SidePlaced;
    EnqueuePlaced(t.nodes, RestsAscending(order.side), t.Levels(order.side), key, order);
    MorePlaced(t.nodes, Opposite(order.side), t.Levels(Opposite(order.side)), key, order);
  }

  lemma FileTables(t: Tables, key: Key, order: Order)
    requires order.kind.Limit?
    ensures var after := FileNode(t, key, order);
            && after.nodes == t.nodes[key := order]
            && after.index == t.index[order.id := InBook(order.side, order.kind.price, key)]
            && after.stopBids == t.stopBids && after.stopAsks == t.stopAsks
            && after.Levels(order.side) ==
               Enqueue(RestsAscending(order.side), t.Levels(order.side), order.kind.price, key)
            && after.Levels(Opposite(order.side)) == t.Levels(Opposite(order.side))
  {}

  lemma FileNodesOwned(t: Tables, key: Key, order: Order)
    requires NodesOwned(t) && key !in t.nodes && order.kind.Limit? && order.id !in t.index
    ensures NodesOwned(FileNode(t, key, order))
  {
    hide Queued, Enqueue, FileNode;
    FileTables(t, key, order);
    EnqueueQueued(RestsAscending(order.side), t.Levels(order.side), order.kind.price, key);
    forall other | other in FileNode(t, key, order).nodes
      ensures NodeOwned(FileNode(t, key, order), other)
    {
      if other != key {
        assert NodeOwned(t, other);
      }
    }
  }

  lemma FileIndexTrue(t: Tables, key: Key, order: Order)
    requires IndexTrue(t) && key !in t.nodes && order.kind.Limit? && order.id !in t.index
    ensures IndexTrue(FileNode(t, key, order))
  {
    hide ParkedAt, FileNode;
    FileTables(t, key, order);
    forall id | id in FileNode(t, key, order).index
      ensures EntryTrue(FileNode(t, key, order), id)
    {
      if id != order.id {
        assert EntryTrue(t, id);
      }
    }
  }

  lemma FreshStaysIndexed(index: map<ExchangeId, Address>, side: Side, stops: seq<PriceLevel>, id: ExchangeId,
                          address: Address)
    requires StopsIndexed(index, side, stops) && id !in index
    ensures StopsIndexed(index[id := address], side, stops)
  {
    hide IdBag;
  }

  // ------------------------------------------------------------------ stops

  /** A stop parked and indexed. */
  function ParkStop(t: Tables, order: Order): Tables
    requires order.kind.IsStop()
  {
    t.WithStops(order.side, Insert(StopsAscending(order.side), t.Stops(order.side), order.kind.trigger, order))
     .(index := t.index[order.id := InStops(order.side, order.kind.trigger)])
  }

  lemma {:induction false} InsertIndexed(index: map<ExchangeId, Address>, ascending: bool, side: Side,
                                         stops: seq<PriceLevel>, order: Order)
    requires order.kind.IsStop() && StopsIndexed(index, side, stops) && order.id !in index
    ensures StopsIndexed(index[order.id := InStops(side, order.kind.trigger)], side,
                         Insert(ascending, stops, order.kind.trigger, order))
  {
    hide LevelIndexed;
    var trigger := order.kind.trigger;
    var after := index[order.id := InStops(side, trigger)];
    FreshStaysIndexed(index, side, stops, order.id, InStops(side, trigger));
    AloneIndexed(after, side, trigger, order);
    if stops == [] {
    } else if stops[0].price == trigger {
      LevelJoined(after, side, stops[0], order);
      IndexedCons(after, side, PriceLevel(trigger, stops[0].orders + [order]), stops[1..]);
    } else if Before(ascending, trigger, stops[0].price) {
      IndexedCons(after, side, PriceLevel(trigger, [order]), stops);
    } else {
      InsertIndexed(index, ascending, side, stops[1..], order);
      IndexedCons(after, side, stops[0], Insert(ascending, stops[1..], trigger, order));
    }
  }

  lemma AloneIndexed(index: map<ExchangeId, Address>, side: Side, trigger: Price, order: Order)
    requires order.id in index && index[order.id] == InStops(side, trigger)
    ensures LevelIndexed(index, side, PriceLevel(trigger, [order]))
  {
    Single(order);
  }

  lemma LevelJoined(index: map<ExchangeId, Address>, side: Side, level: PriceLevel, order: Order)
    requires LevelIndexed(index, side, level) && order.id in index && index[order.id] == InStops(side, level.price)
    ensures LevelIndexed(index, side, PriceLevel(level.price, level.orders + [order]))
  {
    Single(order);
    IdBagAppends(level.orders, [order]);
  }

  lemma IndexedCons(index: map<ExchangeId, Address>, side: Side, first: PriceLevel, rest: seq<PriceLevel>)
    requires StopsIndexed(index, side, rest) && LevelIndexed(index, side, first)
    ensures StopsIndexed(index, side, [first] + rest)
  {
    hide LevelIndexed;
  }

  lemma {:induction false} InsertParked(ascending: bool, stops: seq<PriceLevel>, order: Order, trigger: Price)
    ensures ParkedAt(Insert(ascending, stops, trigger, order), trigger, order.id)
  {
    var after := Insert(ascending, stops, trigger, order);
    Single(order);
    if stops == [] || stops[0].price == trigger || Before(ascending, trigger, stops[0].price) {
      if stops != [] && stops[0].price == trigger {
        IdBagAppends(stops[0].orders, [order]);
      }
      assert Holds(after[0], trigger, order.id);
    } else {
      hide Holds;
      InsertParked(ascending, stops[1..], order, trigger);
      ParkedBehind(stops[0], Insert(ascending, stops[1..], trigger, order), trigger, order.id);
    }
  }

  lemma {:induction false} InsertStaysParked(ascending: bool, stops: seq<PriceLevel>, trigger: Price, order: Order,
                                             at: Price, id: ExchangeId)
    requires ParkedAt(stops, at, id)
    ensures ParkedAt(Insert(ascending, stops, trigger, order), at, id)
  {
    var after := Insert(ascending, stops, trigger, order);
    var i :| 0 <= i < |stops| && Holds(stops[i], at, id);
    hide Holds;
    if stops[0].price == trigger {
      JoinedHolds(stops[0], order, at, id);
      assert i == 0 ==> Holds(after[0], at, id);
      assert i > 0 ==> after[i] == stops[i];
    } else if Before(ascending, trigger, stops[0].price) {
      assert after[i + 1] == stops[i];
    } else if i == 0 {
      assert after[0] == stops[0];
    } else {
      assert stops[1..][i - 1] == stops[i];
      InsertStaysParked(ascending, stops[1..], trigger, order, at, id);
      ParkedBehind(stops[0], Insert(ascending, stops[1..], trigger, order), at, id);
    }
  }

  lemma JoinedHolds(level: PriceLevel, order: Order, at: Price, id: ExchangeId)
    ensures Holds(level, at, id) ==> Holds(PriceLevel(level.price, level.orders + [order]), at, id)
  {
    IdBagAppends(level.orders, [order]);
  }

  lemma ParkedBehind(first: PriceLevel, rest: seq<PriceLevel>, at: Price, id: ExchangeId)
    requires ParkedAt(rest, at, id)
    ensures ParkedAt([first] + rest, at, id)
  {
    hide Holds;
    var i :| 0 <= i < |rest| && Holds(rest[i], at, id);
    assert ([first] + rest)[i + 1] == rest[i];
  }

  lemma ParkStopOwns(t: Tables, order: Order)
    requires Owns(t) && order.kind.IsStop() && order.id !in t.index
    ensures Owns(ParkStop(t, order))
  {
    ParkNodesOwned(t, order);
    ParkIndexTrue(t, order);
    hide StopsIndexed, NodesOwned, IndexTrue, SidePlaced;
    InsertIndexed(t.index, StopsAscending(order.side), order.side, t.Stops(order.side), order);
    FreshStaysIndexed(t.index, Opposite(order.side), t.Stops(Opposite(order.side)), order.id,
                      InStops(order.side, order.kind.trigger));
  }

  lemma ParkNodesOwned(t: Tables, order: Order)
    requires NodesOwned(t) && order.kind.IsStop() && order.id !in t.index
    ensures NodesOwned(ParkStop(t, order))
  {
    hide Queued, Insert;
    forall key | key in t.nodes
      ensures NodeOwned(ParkStop(t, order), key)
    {
      assert NodeOwned(t, key);
    }
  }

  lemma ParkIndexTrue(t: Tables, order: Order)
    requires IndexTrue(t) && order.kind.IsStop() && order.id !in t.index
    ensures IndexTrue(ParkStop(t, order))
  {
    hide ParkedAt, Insert;
    var trigger := order.kind.trigger;
    InsertParked(StopsAscending(order.side), t.Stops(order.side), order, trigger);
    forall id | id in ParkStop(t, order).index
      ensures EntryTrue(ParkStop(t, order), id)
    {
      if id != order.id {
        assert EntryTrue(t, id);
        if t.index[id].InStops? && t.index[id].side == order.side {
          InsertStaysParked(StopsAscending(order.side), t.Stops(order.side), trigger, order, t.index[id].trigger, id);
        }
      }
    }
  }

  /** A stop unparked and forgotten by the index. */
  function UnparkStop(t: Tables, side: Side, id: ExchangeId): Tables {
    t.WithStops(side, Unlink(t.Stops(side), id)).(index := t.index - {id})
  }

  lemma {:induction false} UnlinkIndexed(index: map<ExchangeId, Address>, side: Side, stops: seq<PriceLevel>,
                                         id: ExchangeId)
    requires StopsIndexed(index, side, stops)
    ensures StopsIndexed(index - {id}, side, Unlink(stops, id))
  {
    if stops != [] {
      LevelThinned(index, side, stops[0], id);
      hide LevelIndexed;
      UnlinkIndexed(index, side, stops[1..], id);
      var orders := Without(stops[0].orders, id);
      if orders != [] {
        IndexedCons(index - {id}, side, PriceLevel(stops[0].price, orders), Unlink(stops[1..], id));
      }
    }
  }

  lemma LevelThinned(index: map<ExchangeId, Address>, side: Side, level: PriceLevel, id: ExchangeId)
    requires LevelIndexed(index, side, level)
    ensures LevelIndexed(index - {id}, side, PriceLevel(level.price, Without(level.orders, id)))
  {
    WithoutIds(level.orders, id);
  }

  lemma {:induction false} UnlinkParked(stops: seq<PriceLevel>, id: ExchangeId, trigger: Price, other: ExchangeId)
    requires ParkedAt(stops, trigger, other) && other != id
    ensures ParkedAt(Unlink(stops, id), trigger, other)
  {
    hide Holds;
    var i :| 0 <= i < |stops| && Holds(stops[i], trigger, other);
    var orders, rest := Without(stops[0].orders, id), Unlink(stops[1..], id);
    if i == 0 {
      ThinnedHolds(stops[0], id, trigger, other);
      assert Holds(Unlink(stops, id)[0], trigger, other);
    } else {
      assert stops[1..][i - 1] == stops[i];
      UnlinkParked(stops[1..], id, trigger, other);
      if orders != [] {
        ParkedBehind(PriceLevel(stops[0].price, orders), rest, trigger, other);
      }
    }
  }

  lemma ThinnedHolds(level: PriceLevel, id: ExchangeId, trigger: Price, other: ExchangeId)
    requires Holds(level, trigger, other) && other != id
    ensures Without(level.orders, id) != []
    ensures Holds(PriceLevel(level.price, Without(level.orders, id)), trigger, other)
  {
    WithoutIds(level.orders, id);
  }

  lemma UnparkStopOwns(t: Tables, side: Side, id: ExchangeId)
    requires Owns(t) && id in t.index && t.index[id].InStops? && t.index[id].side == side
    ensures Owns(UnparkStop(t, side, id))
  {
    UnparkNodesOwned(t, side, id);
    UnparkIndexTrue(t, side, id);
    UnparkOther(t.index, Opposite(side), t.Stops(Opposite(side)), id, side);
    hide StopsIndexed, NodesOwned, IndexTrue, SidePlaced;
    UnlinkIndexed(t.index, side, t.Stops(side), id);
  }

  lemma UnparkOther(index: map<ExchangeId, Address>, side: Side, stops: seq<PriceLevel>, id: ExchangeId, home: Side)
    requires StopsIndexed(index, side, stops) && id in index && index[id].InStops? && index[id].side == home != side
    ensures StopsIndexed(index - {id}, side, stops)
  {
    hide IdBag;
  }

  lemma UnparkNodesOwned(t: Tables, side: Side, id: ExchangeId)
    requires NodesOwned(t) && id in t.index && t.index[id].InStops?
    ensures NodesOwned(UnparkStop(t, side, id))
  {
    hide Queued, Unlink;
    forall key | key in t.nodes
      ensures NodeOwned(UnparkStop(t, side, id), key)
    {
      assert NodeOwned(t, key);
    }
  }

  lemma UnparkIndexTrue(t: Tables, side: Side, id: ExchangeId)
    requires IndexTrue(t)
    ensures IndexTrue(UnparkStop(t, side, id))
  {
    hide ParkedAt, Unlink;
    forall other | other in UnparkStop(t, side, id).index
      ensures EntryTrue(UnparkStop(t, side, id), other)
    {
      assert EntryTrue(t, other);
      match t.index[other]
      case InBook(_, _, _) =>
      case InStops(home, trigger) =>
        if home == side {
          UnlinkParked(t.Stops(side), id, trigger, other);
        }
    }
  }

  // ------------------------------------------------------------ cancellation

  /** The key is the only node with this id. */
  ghost predicate Names(nodes: map<Key, Order>, id: ExchangeId, key: Key) {
    forall other :: other in nodes ==> (nodes[other].id == id <==> other == key)
  }

  lemma OwnedNames(t: Tables, key: Key)
    requires NodesOwned(t) && key in t.nodes
    ensures Names(t.nodes, t.nodes[key].id, key)
  {
    hide Queued;
    assert NodeOwned(t, key);
    forall other | other in t.nodes
      ensures t.nodes[other].id == t.nodes[key].id <==> other == key
    {
      assert NodeOwned(t, other);
    }
  }

  lemma {:induction false} KeepResolves(keys: seq<Key>, nodes: map<Key, Order>, orders: seq<Order>, key: Key,
                                        id: ExchangeId)
    requires Resolves(keys, nodes, orders) && Names(nodes, id, key)
    ensures Resolves(Keep(keys, {key}), nodes - {key}, Without(orders, id))
  {
    if keys != [] {
      var n := |keys| - 1;
      KeepResolves(keys[..n], nodes, orders[..n], key, id);
    }
  }

  lemma OthersStillShow(nodes: map<Key, Order>, side: Side, levels: seq<KeyLevel>, shown: seq<PriceLevel>,
                        price: Price, key: Key)
    requires SideShows(levels, nodes, shown) && SidePlaced(nodes, side, levels)
    requires key in nodes && (nodes[key].side == side && nodes[key].kind.Limit? ==> nodes[key].kind.price == price)
    requires forall i :: 0 <= i < |levels| ==> levels[i].price != price || nodes[key].side != side
    ensures SideShows(levels, nodes - {key}, shown)
  {
    forall i | 0 <= i < |levels|
      ensures LevelShows(levels[i], nodes - {key}, shown[i])
    {
      assert LevelShows(levels[i], nodes, shown[i]) && QueuePlaced(nodes, side, levels[i]);
      assert forall j :: 0 <= j < |levels[i].keys| ==> Placed(nodes, side, levels[i].price, levels[i].keys[j]);
    }
  }

  ghost predicate DistinctPrices(levels: seq<KeyLevel>) {
    forall i, j :: 0 <= i < j < |levels| ==> levels[i].price != levels[j].price
  }

  lemma {:induction false} DropShows(nodes: map<Key, Order>, side: Side, levels: seq<KeyLevel>, shown: seq<PriceLevel>,
                                     price: Price, key: Key, id: ExchangeId)
    requires SideShows(levels, nodes, shown) && SidePlaced(nodes, side, levels) && DistinctPrices(levels)
    requires key in nodes && nodes[key].side == side && nodes[key].kind.Limit? && nodes[key].kind.price == price
    requires Names(nodes, id, key)
    ensures SideShows(RemoveEmpty(DropKey(levels, price, key), price), nodes - {key}, UnlinkAt(shown, price, id))
  {
    hide QueuePlaced, Names, Resolves;
    if levels != [] {
      var dropped := DropKey(levels, price, key);
      assert dropped[1..] == DropKey(levels[1..], price, key);
      assert LevelShows(levels[0], nodes, shown[0]);
      if levels[0].price == price {
        KeepResolves(levels[0].keys, nodes, shown[0].orders, key, id);
        SameLength(dropped[0].keys, nodes - {key}, Without(shown[0].orders, id));
        OthersStillShow(nodes, side, levels[1..], shown[1..], price, key);
        assert dropped[1..] == levels[1..];
        ShowsCons(dropped[0], levels[1..], nodes - {key}, PriceLevel(price, Without(shown[0].orders, id)), shown[1..]);
        assert dropped == [dropped[0]] + levels[1..];
      } else {
        DropShows(nodes, side, levels[1..], shown[1..], price, key, id);
        OthersStillShow(nodes, side, levels[..1], shown[..1], price, key);
        assert LevelShows(levels[..1][0], nodes - {key}, shown[..1][0]);
        ShowsCons(levels[0], RemoveEmpty(dropped[1..], price), nodes - {key}, shown[0],
                  UnlinkAt(shown[1..], price, id));
      }
    }
  }

  lemma SameLength(keys: seq<Key>, nodes: map<Key, Order>, orders: seq<Order>)
    requires Resolves(keys, nodes, orders)
    ensures keys == [] <==> orders == []
  {}

  // ------------------------------------------------------------------- sweeping

  lemma {:induction false} ForeignResolves(keys: seq<Key>, nodes: map<Key, Order>, after: map<Key, Order>,
                                           orders: seq<Order>, client: ClientId, dead: set<Key>)
    requires Resolves(keys, nodes, orders)
    requires forall j :: 0 <= j < |keys| ==> (keys[j] in dead <==> orders[j].client == client)
    requires forall key :: key in nodes && key !in dead ==> key in after && after[key] == nodes[key]
    ensures Resolves(Keep(keys, dead), after, Foreign(orders, client))
  {
    if keys != [] {
      var n := |keys| - 1;
      ForeignResolves(keys[..n], nodes, after, orders[..n], client, dead);
    }
  }

  lemma {:induction false} SettleResolves(keys: seq<Key>, after: map<Key, Order>, orders: seq<Order>, shares: seq<nat>,
                                          dead: set<Key>)
    requires |shares| == |orders| == |keys|
    requires forall j :: 0 <= j < |orders| ==> shares[j] <= orders[j].remaining
    requires forall j :: 0 <= j < |keys| ==> (keys[j] in dead <==> shares[j] > 0 && shares[j] == orders[j].remaining)
    requires forall j :: 0 <= j < |keys| && keys[j] !in dead ==>
               keys[j] in after && after[keys[j]] == orders[j].(remaining := orders[j].remaining - shares[j])
    ensures Resolves(Keep(keys, dead), after, Settle(orders, shares))
  {
    if keys != [] {
      var n := |keys| - 1;
      SettleResolves(keys[..n], after, orders[..n], shares[..n], dead);
    }
  }

  /** Only the best level of one side has been worked on. */
  ghost predicate HeadOnly(t: Tables, after: Tables, side: Side) {
    && t.Levels(side) != [] && after.Levels(side) != []
    && after.Levels(side)[0].price == t.Levels(side)[0].price
    && after.Levels(side)[1..] == t.Levels(side)[1..]
    && after.Levels(Opposite(side)) == t.Levels(Opposite(side))
    && after.stopBids == t.stopBids && after.stopAsks == t.stopAsks
    && after.nodes.Keys <= t.nodes.Keys
    && (forall key :: key in after.Levels(side)[0].keys ==> key in t.Levels(side)[0].keys)
    && (forall key :: key in t.nodes && key !in t.Levels(side)[0].keys ==>
          key in after.nodes && after.nodes[key] == t.nodes[key])
  }

  lemma HeadOnlyChains(t: Tables, mid: Tables, after: Tables, side: Side)
    requires HeadOnly(t, mid, side) && HeadOnly(mid, after, side)
    ensures HeadOnly(t, after, side)
  {}

  lemma RestStillShows(nodes: map<Key, Order>, after: map<Key, Order>, side: Side, levels: seq<KeyLevel>,
                       shown: seq<PriceLevel>, worked: set<Key>)
    requires SideShows(levels, nodes, shown)
    requires forall i, j :: 0 <= i < |levels| && 0 <= j < |levels[i].keys| ==> levels[i].keys[j] !in worked
    requires forall key :: key in nodes && key !in worked ==> key in after && after[key] == nodes[key]
    ensures SideShows(levels, after, shown)
  {
    forall i | 0 <= i < |levels|
      ensures LevelShows(levels[i], after, shown[i])
    {
      assert LevelShows(levels[i], nodes, shown[i]);
    }
  }

  lemma OtherQueuesAreElsewhere(t: Tables, side: Side)
    requires Owns(t) && t.Levels(side) != [] && DistinctPrices(t.Levels(side))
    ensures forall i, j :: 0 < i < |t.Levels(side)| && 0 <= j < |t.Levels(side)[i].keys| ==>
              t.Levels(side)[i].keys[j] !in t.Levels(side)[0].keys
    ensures forall i, j :: 0 <= i < |t.Levels(Opposite(side))| && 0 <= j < |t.Levels(Opposite(side))[i].keys| ==>
              t.Levels(Opposite(side))[i].keys[j] !in t.Levels(side)[0].keys
  {
    hide NodesOwned, IndexTrue, StopsIndexed;
    var head := t.Levels(side)[0];
    assert QueuePlaced(t.nodes, side, head);
    forall i, j | 0 < i < |t.Levels(side)| && 0 <= j < |t.Levels(side)[i].keys|
      ensures t.Levels(side)[i].keys[j] !in head.keys
    {
      assert QueuePlaced(t.nodes, side, t.Levels(side)[i]);
      assert Placed(t.nodes, side, t.Levels(side)[i].price, t.Levels(side)[i].keys[j]);
    }
    forall i, j | 0 <= i < |t.Levels(Opposite(side))| && 0 <= j < |t.Levels(Opposite(side))[i].keys|
      ensures t.Levels(Opposite(side))[i].keys[j] !in head.keys
    {
      assert QueuePlaced(t.nodes, Opposite(side), t.Levels(Opposite(side))[i]);
      assert Placed(t.nodes, Opposite(side), t.Levels(Opposite(side))[i].price, t.Levels(Opposite(side))[i].keys[j]);
    }
  }

  /** Working on one queue leaves every other queue showing what it showed. */
  lemma HeadChanged(t: Tables, after: Tables, b: Book, side: Side, orders: seq<Order>)
    requires Owns(t) && Shows(t, b) && HeadOnly(t, after, side) && DistinctPrices(t.Levels(side))
    requires Resolves(after.Levels(side)[0].keys, after.nodes, orders)
    ensures b.Levels(side) != []
    ensures Shows(after, b.WithLevels(side, [PriceLevel(b.Levels(side)[0].price, orders)] + b.Levels(side)[1..]))
  {
    hide Resolves;
    OtherQueuesAreElsewhere(t, side);
    hide Owns, DistinctPrices;
    var worked := set key | key in t.Levels(side)[0].keys;
    var levels, shown := t.Levels(side), b.Levels(side);
    assert LevelShows(levels[0], t.nodes, shown[0]);
    TailShows(levels, t.nodes, shown);
    RestStillShows(t.nodes, after.nodes, side, levels[1..], shown[1..], worked);
    RestStillShows(t.nodes, after.nodes, Opposite(side), t.Levels(Opposite(side)), b.Levels(Opposite(side)), worked);
    ShowsCons(after.Levels(side)[0], levels[1..], after.nodes, PriceLevel(shown[0].price, orders), shown[1..]);
    assert after.Levels(side) == [after.Levels(side)[0]] + levels[1..];
  }

  lemma TailShows(levels: seq<KeyLevel>, nodes: map<Key, Order>, shown: seq<PriceLevel>)
    requires SideShows(levels, nodes, shown) && levels != []
    ensures SideShows(levels[1..], nodes, shown[1..])
  {
    hide LevelShows;
  }

  // --------------------------------------------------- cancelling either kind

  lemma SideFacts(spec: InstrumentSpec, side: Side, bound: nat, levels: seq<PriceLevel>)
    requires spec.lotSize > 0 && SideOk(spec, side, bound, levels)
    ensures NoneEmpty(levels)
    ensures forall i, j :: 0 <= i < j < |levels| ==> levels[i].price != levels[j].price
  {
    forall i | 0 <= i < |levels|
      ensures levels[i].orders != []
    {
      assert LevelOk(spec, side, bound, levels[i]);
    }
  }

  lemma StopFacts(spec: InstrumentSpec, side: Side, stops: seq<PriceLevel>)
    requires spec.lotSize > 0 && StopsOk(spec, side, stops)
    ensures NoneEmpty(stops)
    ensures forall i, j :: 0 <= i < j < |stops| ==> stops[i].price != stops[j].price
  {
    forall i | 0 <= i < |stops|
      ensures stops[i].orders != []
    {
      assert StopLevelOk(spec, side, stops[i]);
    }
  }

  /** Nothing but its own list changes when an id that is only there is unlinked. */
  lemma UnlinkOnlyThere(spec: InstrumentSpec, b: Book, id: ExchangeId, keep: Side)
    requires spec.lotSize > 0 && WellFormed(spec, b)
    ensures id !in Ids(b.Levels(keep)) ==> Unlink(b.Levels(keep), id) == b.Levels(keep)
    ensures id !in Ids(b.Stops(keep)) ==> Unlink(b.Stops(keep), id) == b.Stops(keep)
  {
    hide Ids, Distinct, LevelsOk, StopLevelsOk;
    SideFacts(spec, keep, b.nextArrival, b.Levels(keep));
    StopFacts(spec, keep, b.Stops(keep));
    if id !in Ids(b.Levels(keep)) {
      UnlinkAbsent(b.Levels(keep), id);
    }
    if id !in Ids(b.Stops(keep)) {
      UnlinkAbsent(b.Stops(keep), id);
    }
  }

  /** An id that is alive is alive in one list only. */
  lemma AliveOnce(b: Book, id: ExchangeId)
    requires Distinct(LiveIds(b))
    ensures Ids(b.bids)[id] + Ids(b.asks)[id] + Ids(b.stopBids)[id] + Ids(b.stopAsks)[id] <= 1
  {
    assert LiveIds(b)[id] <= 1;
  }

  lemma DistinctIn(b: Book, side: Side)
    requires Distinct(LiveIds(b))
    ensures Distinct(Ids(b.Levels(side))) && Distinct(Ids(b.Stops(side)))
  {
    hide Ids, Distinct;
    FewerIds(Ids(b.Levels(side)), LiveIds(b));
    FewerIds(Ids(b.Stops(side)), LiveIds(b));
  }

  /** Where the index says a resting order is, there it is. */
  lemma RestIsThere(t: Tables, b: Book, id: ExchangeId) returns (i: nat)
    requires Owns(t) && Shows(t, b) && id in t.index && t.index[id].InBook?
    ensures var InBook(side, price, key) := t.index[id];
            && key in t.nodes && t.nodes[key].id == id && t.nodes[key].side == side
            && t.nodes[key].kind.Limit? && t.nodes[key].kind.price == price
            && i < |b.Levels(side)| && b.Levels(side)[i].price == price && id in IdBag(b.Levels(side)[i].orders)
  {
    hide SidePlaced, StopsIndexed, IdBag;
    var InBook(side, price, key) := t.index[id];
    assert EntryTrue(t, id);
    assert NodeOwned(t, key);
    var q :| 0 <= q < |t.Levels(side)| && t.Levels(side)[q].price == price && key in t.Levels(side)[q].keys;
    assert LevelShows(t.Levels(side)[q], t.nodes, b.Levels(side)[q]);
    var j :| 0 <= j < |t.Levels(side)[q].keys| && t.Levels(side)[q].keys[j] == key;
    IdIsCounted(b.Levels(side)[q].orders, j);
    i := q;
  }

  lemma RestCancelled(spec: InstrumentSpec, b: Book, side: Side, i: nat, id: ExchangeId)
    requires spec.lotSize > 0 && WellFormed(spec, b)
    requires i < |b.Levels(side)| && id in IdBag(b.Levels(side)[i].orders)
    ensures id in LiveIds(b)
    ensures CancelOrder(b, id).book == b.WithLevels(side, UnlinkAt(b.Levels(side), b.Levels(side)[i].price, id))
  {
    ListedBehind(b.Levels(side), i, id);
    AliveOnce(b, id);
    DistinctIn(b, side);
    SideFacts(spec, side, b.nextArrival, b.Levels(side));
    hide Ids, IdBag, WellFormed;
    UnlinkAtIsUnlink(b.Levels(side), i, id);
    UnlinkOnlyThere(spec, b, id, side);
    UnlinkOnlyThere(spec, b, id, Opposite(side));
  }

  lemma StopCancelled(spec: InstrumentSpec, b: Book, side: Side, i: nat, id: ExchangeId)
    requires spec.lotSize > 0 && WellFormed(spec, b)
    requires i < |b.Stops(side)| && id in IdBag(b.Stops(side)[i].orders)
    ensures id in LiveIds(b)
    ensures UnlinkAt(b.Stops(side), b.Stops(side)[i].price, id) == Unlink(b.Stops(side), id)
    ensures CancelOrder(b, id).book == b.WithStops(side, Unlink(b.Stops(side), id))
  {
    ListedBehind(b.Stops(side), i, id);
    AliveOnce(b, id);
    DistinctIn(b, side);
    StopFacts(spec, side, b.Stops(side));
    hide Ids, IdBag, WellFormed;
    UnlinkAtIsUnlink(b.Stops(side), i, id);
    UnlinkOnlyThere(spec, b, id, side);
    UnlinkOnlyThere(spec, b, id, Opposite(side));
  }

  /** A resting order dropped, its level gone if that drained it, its id forgotten. */
  function CancelRest(t: Tables, id: ExchangeId): Tables
    requires id in t.index && t.index[id].InBook?
  {
    var InBook(side, price, key) := t.index[id];
    t.WithLevels(side, RemoveEmpty(DropKey(t.Levels(side), price, key), price))
     .(nodes := t.nodes - {key}, index := t.index - {id})
  }

  lemma CancelRestOwns(t: Tables, b: Book, id: ExchangeId)
    requires Owns(t) && Shows(t, b) && id in t.index && t.index[id].InBook?
    ensures Owns(CancelRest(t, id))
  {
    hide Owns, Shows, RemoveEmpty;
    var i := RestIsThere(t, b, id);
    var InBook(side, price, key) := t.index[id];
    DropNodeOwns(t, key);
    DropTables(t, key);
    RemoveEmptyOwns(DropNode(t, key), side, price);
    hide DropKey;
    assert CancelRest(t, id) == DropNode(t, key).WithLevels(side, RemoveEmpty(DropNode(t, key).Levels(side), price));
  }

  /** Cancelling by index entry is cancelling by id. */
  lemma CancelRestShows(t: Tables, b: Book, spec: InstrumentSpec, id: ExchangeId)
    requires Owns(t) && Shows(t, b) && spec.lotSize > 0 && WellFormed(spec, b)
    requires id in t.index && t.index[id].InBook?
    ensures Shows(CancelRest(t, id), CancelOrder(b, id).book)
  {
    var i := RestIsThere(t, b, id);
    var InBook(side, price, key) := t.index[id];
    RestCancelled(spec, b, side, i, id);
    OwnedNames(t, key);
    ShowsDistinct(t, b, spec, side);
    hide WellFormed, NodesOwned, IndexTrue, StopsIndexed, Names, SidePlaced, SideShows, RemoveEmpty, DropKey, UnlinkAt,
      CancelOrder;
    DropShows(t.nodes, side, t.Levels(side), b.Levels(side), price, key, id);
    OthersStillShow(t.nodes, Opposite(side), t.Levels(Opposite(side)), b.Levels(Opposite(side)), price, key);
  }

  lemma ShowsDistinct(t: Tables, b: Book, spec: InstrumentSpec, side: Side)
    requires Shows(t, b) && spec.lotSize > 0 && WellFormed(spec, b)
    ensures DistinctPrices(t.Levels(side))
  {
    hide Distinct, LevelsOk, StopsOk;
    forall i | 0 <= i < |t.Levels(side)|
      ensures t.Levels(side)[i].price == b.Levels(side)[i].price
    {
      assert LevelShows(t.Levels(side)[i], t.nodes, b.Levels(side)[i]);
    }
  }

  lemma StopIsThere(t: Tables, id: ExchangeId) returns (i: nat)
    requires IndexTrue(t) && id in t.index && t.index[id].InStops?
    ensures var InStops(side, trigger) := t.index[id];
            i < |t.Stops(side)| && t.Stops(side)[i].price == trigger && id in IdBag(t.Stops(side)[i].orders)
  {
    var InStops(side, trigger) := t.index[id];
    assert EntryTrue(t, id);
    var q :| 0 <= q < |t.Stops(side)| && Holds(t.Stops(side)[q], trigger, id);
    i := q;
  }

  /** The same for a parked stop. */
  lemma CancelStopAgrees(t: Tables, b: Book, spec: InstrumentSpec, id: ExchangeId)
    requires Owns(t) && Shows(t, b) && spec.lotSize > 0 && WellFormed(spec, b)
    requires id in t.index && t.index[id].InStops?
    ensures var InStops(side, trigger) := t.index[id];
            && UnlinkAt(t.Stops(side), trigger, id) == Unlink(t.Stops(side), id)
            && Owns(UnparkStop(t, side, id))
            && Shows(UnparkStop(t, side, id), CancelOrder(b, id).book)
  {
    hide WellFormed, SideShows, Unlink, UnlinkAt, CancelOrder, IdBag, SidePlaced, NodesOwned, StopsIndexed, IndexTrue;
    var i := StopIsThere(t, id);
    var side := t.index[id].side;
    UnparkStopOwns(t, side, id);
    StopCancelled(spec, b, side, i, id);
  }

  /** The same for the oldest stop of the first trigger, popped. */
  lemma PopAgrees(t: Tables, b: Book, spec: InstrumentSpec, side: Side)
    requires Owns(t) && Shows(t, b) && spec.lotSize > 0 && WellFormed(spec, b)
    requires b.Stops(side) != []
    ensures b.Stops(side)[0].orders != []
    ensures var id := b.Stops(side)[0].orders[0].id;
            && PopFront(t.Stops(side)) == Unlink(t.Stops(side), id)
            && Owns(UnparkStop(t, side, id))
            && Shows(UnparkStop(t, side, id), b.WithStops(side, PopFront(b.Stops(side))))
  {
    StopFacts(spec, side, b.Stops(side));
    DistinctIn(b, side);
    var id := b.Stops(side)[0].orders[0].id;
    IdIsListed(b.Stops(side), 0, 0);
    hide WellFormed, SideShows, Unlink, IdBag, Ids, PopFront;
    PopIsUnlink(b.Stops(side));
    StopsAreIndexed(t.index, side, t.Stops(side), id);
    UnparkStopOwns(t, side, id);
  }
}
