/** One price level's queue as it is stored: a doubly linked list whose nodes live
    in an arena shared with every other queue of the book. Each queue behaves as a
    sequence of its own. */
module OrderQueues {
  import opened Wrappers
  import opened Allocation
  import opened Orders
  import opened Ownership

  datatype Node = Node(order: Order, previous: Option<Key>, next: Option<Key>)

  /** Slots handed out under keys that are never handed out twice. */
  class Arena {
    var nodes: map<Key, Node>
    var nextKey: Key

    ghost predicate Valid()
      reads this
    {
      forall key :: key in nodes ==> key < nextKey
    }

    constructor ()
      ensures Valid() && nodes == map[]
    {
      nodes, nextKey := map[], 0;
    }

    method Insert(node: Node) returns (key: Key)
      requires Valid()
      modifies this
      ensures Valid() && key !in old(nodes) && nodes == old(nodes)[key := node]
    {
      key := nextKey;
      nodes, nextKey := nodes[key := node], nextKey + 1;
    }
  }

  // ------------------------------------------------------------------ links

  function At(keys: seq<Key>, i: int): Option<Key> {
    if 0 <= i < |keys| then Some(keys[i]) else None
  }

  /** The node behind the i-th key is linked to its neighbours, both ways. */
  ghost predicate LinkedAt(nodes: map<Key, Node>, keys: seq<Key>, i: nat)
    requires i < |keys|
  {
    && keys[i] in nodes
    && nodes[keys[i]].previous == At(keys, i - 1)
    && nodes[keys[i]].next == At(keys, i + 1)
  }

  ghost predicate NoRepeats(keys: seq<Key>) {
    forall i, j :: 0 <= i < j < |keys| ==> keys[i] != keys[j]
  }

  ghost predicate Chained(nodes: map<Key, Node>, keys: seq<Key>) {
    && NoRepeats(keys)
    && (forall i :: 0 <= i < |keys| ==> keys[i] in nodes)
    && forall i :: 0 <= i < |keys| ==> LinkedAt(nodes, keys, i)
  }

  /** The orders behind the keys, in queue order. */
  ghost function OrdersAt(nodes: map<Key, Node>, keys: seq<Key>): (orders: seq<Order>)
    requires Chained(nodes, keys)
    ensures |orders| == |keys|
    ensures forall i :: 0 <= i < |keys| ==> keys[i] in nodes && orders[i] == nodes[keys[i]].order
  {
    seq(|keys|, i requires 0 <= i < |keys| => nodes[keys[i]].order)
  }

  /** Nothing outside `mine` has changed. */
  ghost predicate Untouched(before: map<Key, Node>, after: map<Key, Node>, mine: seq<Key>) {
    forall key :: key in before && key !in mine ==> key in after && after[key] == before[key]
  }

  ghost predicate Disjoint(a: seq<Key>, b: seq<Key>) {
    forall key :: key in a ==> key !in b
  }

  function WithNext(nodes: map<Key, Node>, key: Option<Key>, next: Option<Key>): map<Key, Node> {
    if key.Some? && key.value in nodes then nodes[key.value := nodes[key.value].(next := next)] else nodes
  }

  function WithPrevious(nodes: map<Key, Node>, key: Option<Key>, previous: Option<Key>): map<Key, Node> {
    if key.Some? && key.value in nodes then nodes[key.value := nodes[key.value].(previous := previous)] else nodes
  }

  function Cut<T>(s: seq<T>, i: nat): (cut: seq<T>)
    requires i < |s|
    ensures |cut| == |s| - 1
    ensures forall k :: 0 <= k < |cut| ==> cut[k] == s[if k < i then k else k + 1]
  {
    s[..i] + s[i + 1..]
  }

  /** A queue none of whose nodes was touched is what it was. */
  lemma ElsewhereUntouched(before: map<Key, Node>, after: map<Key, Node>, mine: seq<Key>, keys: seq<Key>)
    requires Untouched(before, after, mine) && Disjoint(keys, mine) && Chained(before, keys)
    ensures Chained(after, keys) && OrdersAt(after, keys) == OrdersAt(before, keys)
  {
    forall i | 0 <= i < |keys|
      ensures keys[i] in after && after[keys[i]] == before[keys[i]] && LinkedAt(after, keys, i)
    {
      assert LinkedAt(before, keys, i);
    }
  }

  lemma AppendedAt(before: map<Key, Node>, keys: seq<Key>, key: Key, order: Order, i: nat)
    requires Chained(before, keys) && key !in before && i <= |keys|
    ensures var tail, all := At(keys, |keys| - 1), keys + [key];
            var after := WithNext(before[key := Node(order, tail, None)], tail, Some(key));
            && all[i] in after && LinkedAt(after, all, i)
            && after[all[i]].order == if i < |keys| then OrdersAt(before, keys)[i] else order
  {
    if keys != [] {
      Neighbours(before, keys, |keys| - 1);
    }
    if i < |keys| {
      Neighbours(before, keys, i);
    }
  }

  /** A fresh node linked behind the tail. */
  lemma Appended(before: map<Key, Node>, keys: seq<Key>, key: Key, order: Order)
    requires Chained(before, keys) && key !in before
    ensures var tail := At(keys, |keys| - 1);
            var after := WithNext(before[key := Node(order, tail, None)], tail, Some(key));
            && Chained(after, keys + [key])
            && OrdersAt(after, keys + [key]) == OrdersAt(before, keys) + [order]
            && Untouched(before, after, keys)
            && after.Keys == before.Keys + {key}
  {
    var tail := At(keys, |keys| - 1);
    var after := WithNext(before[key := Node(order, tail, None)], tail, Some(key));
    assert key !in keys;
    if keys != [] {
      Neighbours(before, keys, |keys| - 1);
    }
    assert Untouched(before, after, keys) && after.Keys == before.Keys + {key};
    hide WithNext;
    forall i | 0 <= i < |keys + [key]|
      ensures (keys + [key])[i] in after && LinkedAt(after, keys + [key], i)
      ensures after[(keys + [key])[i]].order == if i < |keys| then OrdersAt(before, keys)[i] else order
    {
      AppendedAt(before, keys, key, order, i);
    }
  }

  /** The tables once the node at `i` has been freed and its neighbours joined. */
  function Spliced(nodes: map<Key, Node>, keys: seq<Key>, i: nat): map<Key, Node>
    requires i < |keys|
  {
    WithPrevious(WithNext(nodes - {keys[i]}, At(keys, i - 1), At(keys, i + 1)), At(keys, i + 1), At(keys, i - 1))
  }

  lemma SplicedLinks(before: map<Key, Node>, keys: seq<Key>, i: nat, k: nat)
    requires Chained(before, keys) && i < |keys| && k < |keys| - 1
    ensures LinkedAt(Spliced(before, keys, i), Cut(keys, i), k)
    ensures Spliced(before, keys, i)[Cut(keys, i)[k]].order == OrdersAt(before, keys)[if k < i then k else k + 1]
  {
    var from := if k < i then k else k + 1;
    assert Cut(keys, i)[k] == keys[from];
    assert LinkedAt(before, keys, from) && LinkedAt(before, keys, i);
  }

  lemma CutNoRepeats(keys: seq<Key>, i: nat)
    requires NoRepeats(keys) && i < |keys|
    ensures NoRepeats(Cut(keys, i)) && |Cut(keys, i)| == |keys| - 1
  {}

  lemma SplicedElsewhere(before: map<Key, Node>, keys: seq<Key>, i: nat)
    requires Chained(before, keys) && i < |keys|
    ensures Untouched(before, Spliced(before, keys, i), keys)
    ensures Spliced(before, keys, i).Keys == before.Keys - {keys[i]}
  {}

  lemma SplicedChain(before: map<Key, Node>, keys: seq<Key>, i: nat)
    requires Chained(before, keys) && i < |keys|
    ensures var after := Spliced(before, keys, i);
            && Chained(after, Cut(keys, i))
            && OrdersAt(after, Cut(keys, i)) == Cut(OrdersAt(before, keys), i)
            && Untouched(before, after, keys)
            && after.Keys == before.Keys - {keys[i]}
  {
    var after, left := Spliced(before, keys, i), Cut(keys, i);
    CutNoRepeats(keys, i);
    SplicedElsewhere(before, keys, i);
    hide Spliced;
    forall k | 0 <= k < |left|
      ensures left[k] in after && LinkedAt(after, left, k)
      ensures after[left[k]].order == OrdersAt(before, keys)[if k < i then k else k + 1]
    {
      SplicedLinks(before, keys, i, k);
    }
  }

  /** Writing an order in place moves no link. */
  lemma Rewritten(before: map<Key, Node>, keys: seq<Key>, i: nat, order: Order)
    requires Chained(before, keys) && i < |keys|
    ensures keys[i] in before
    ensures var after := before[keys[i] := before[keys[i]].(order := order)];
            && Chained(after, keys)
            && OrdersAt(after, keys) == OrdersAt(before, keys)[i := order]
            && Untouched(before, after, keys)
  {
    assert LinkedAt(before, keys, i);
    forall k | 0 <= k < |keys|
      ensures keys[k] in before && LinkedAt(before[keys[i] := before[keys[i]].(order := order)], keys, k)
    {
      assert LinkedAt(before, keys, k);
    }
  }

  // ----------------------------------------------------------------- queues

  class LevelQueue {
    var head: Option<Key>
    var tail: Option<Key>
    var len: nat
    ghost var keys: seq<Key>

    /** The links in the arena spell out `keys`, forwards and backwards. */
    ghost predicate Linked(nodes: map<Key, Node>)
      reads this
    {
      && Chained(nodes, keys)
      && head == At(keys, 0) && tail == At(keys, |keys| - 1) && len == |keys|
    }

    ghost function Orders(nodes: map<Key, Node>): (orders: seq<Order>)
      requires Linked(nodes)
      reads this
    {
      OrdersAt(nodes, keys)
    }

    constructor ()
      ensures keys == [] && head == tail == None && len == 0
    {
      head, tail, len, keys := None, None, 0, [];
    }

    predicate IsEmpty()
      reads this
    {
      len == 0
    }

    // What each operation does to the nodes: nothing outside this queue changes.

    /** A fresh node linked behind the tail. */
    method LinkBack(arena: Arena, order: Order) returns (key: Key)
      requires arena.Valid() && Linked(arena.nodes)
      modifies this, arena
      ensures arena.Valid() && Linked(arena.nodes) && Untouched(old(arena.nodes), arena.nodes, old(keys))
      ensures key !in old(arena.nodes) && arena.nodes.Keys == old(arena.nodes).Keys + {key}
      ensures keys == old(keys) + [key] && Orders(arena.nodes) == old(Orders(arena.nodes)) + [order]
    {
      hide Chained, OrdersAt, Untouched;
      ghost var before, was := arena.nodes, keys;
      key := arena.Insert(Node(order, tail, None));
      Appended(before, was, key, order);
      if tail.Some? {
        var last := tail.value;
        Neighbours(before, was, |was| - 1);
        arena.nodes := arena.nodes[last := arena.nodes[last].(next := Some(key))];
      } else {
        head := Some(key);
      }
      tail := Some(key);
      len := len + 1;
      keys := keys + [key];
    }

    /** The neighbours of a freed node joined to each other, or to the ends. */
    method Bypass(arena: Arena, previous: Option<Key>, next: Option<Key>)
      requires arena.Valid()
      requires previous.Some? ==> previous.value in arena.nodes
      requires next.Some? ==> next.value in arena.nodes
      modifies this`head, this`tail, arena`nodes
      ensures arena.Valid()
      ensures arena.nodes == WithPrevious(WithNext(old(arena.nodes), previous, next), next, previous)
      ensures head == (if previous.Some? then old(head) else next)
      ensures tail == (if next.Some? then old(tail) else previous)
    {
      if previous.Some? {
        var before := arena.nodes[previous.value];
        arena.nodes := arena.nodes[previous.value := before.(next := next)];
      } else {
        head := next;
      }
      if next.Some? {
        var behind := arena.nodes[next.value];
        arena.nodes := arena.nodes[next.value := behind.(previous := previous)];
      } else {
        tail := previous;
      }
    }

    /** A live node out, its neighbours joined. */
    method UnlinkLive(arena: Arena, key: Key, ghost at: nat) returns (removed: Order)
      requires arena.Valid() && Linked(arena.nodes) && at < |keys| && keys[at] == key
      modifies this, arena
      ensures arena.Valid() && Linked(arena.nodes) && Untouched(old(arena.nodes), arena.nodes, old(keys))
      ensures removed == old(Orders(arena.nodes))[at] && arena.nodes.Keys == old(arena.nodes).Keys - {key}
      ensures keys == Cut(old(keys), at) && Orders(arena.nodes) == Cut(old(Orders(arena.nodes)), at)
    {
      hide Chained, OrdersAt, Untouched, Cut, WithNext, WithPrevious;
      ghost var before, was := arena.nodes, keys;
      SplicedChain(before, was, at);
      Neighbours(before, was, at);
      CutEnds(was, at);
      OrderBehind(before, was, at);
      var node := arena.nodes[key];
      arena.nodes := arena.nodes - {key};
      Bypass(arena, node.previous, node.next);
      len := len - 1;
      keys := Cut(was, at);
      removed := node.order;
    }

    /** One node out; a stale key does nothing. */
    method UnlinkKey(arena: Arena, key: Key) returns (removed: Option<Order>, ghost at: nat)
      requires arena.Valid() && Linked(arena.nodes) && (key in arena.nodes ==> key in keys)
      modifies this, arena
      ensures arena.Valid() && Linked(arena.nodes) && Untouched(old(arena.nodes), arena.nodes, old(keys))
      ensures key !in old(arena.nodes) ==>
                removed == None && arena.nodes == old(arena.nodes) && keys == old(keys)
      ensures key in old(arena.nodes) ==>
                && at < |old(keys)| && old(keys)[at] == key
                && removed == Some(old(Orders(arena.nodes))[at])
                && keys == Cut(old(keys), at) && Orders(arena.nodes) == Cut(old(Orders(arena.nodes)), at)
    {
      hide Chained, OrdersAt, Cut;
      at := 0;
      if key !in arena.nodes {
        return None, at;
      }
      at :| at < |keys| && keys[at] == key;
      OrderBehind(arena.nodes, keys, at);
      var order := UnlinkLive(arena, key, at);
      return Some(order), at;
    }

    /** One client's nodes out, from the head; the cursor moves on first. */
    method UnlinkClient(arena: Arena, client: ClientId) returns (removed: seq<Order>)
      requires arena.Valid() && Linked(arena.nodes)
      modifies this, arena
      ensures arena.Valid() && Linked(arena.nodes) && Untouched(old(arena.nodes), arena.nodes, old(keys))
      ensures forall key :: key in keys ==> key in old(keys)
      ensures removed == Own(old(Orders(arena.nodes)), client)
      ensures Orders(arena.nodes) == Foreign(old(Orders(arena.nodes)), client)
    {
      hide Chained, OrdersAt, Foreign, Own, Cut, Untouched, Midway;
      ghost var before, was, orders := arena.nodes, keys, Orders(arena.nodes);
      ghost var at: nat, i: nat := 0, 0;
      removed := [];
      var cursor := head;
      StartOfWalk(before, was, client);
      while cursor.Some?
        invariant arena.Valid() && Linked(arena.nodes)
        invariant i <= |was| && cursor == At(was, i)
        invariant Midway(before, was, arena.nodes, keys, i, at, client)
        invariant removed == Own(orders[..i], client)
        decreases |was| - i
      {
        var key := cursor.value;
        MidwaySteps(before, was, arena.nodes, keys, i, at, client);
        var node := arena.nodes[key];
        cursor := node.next;
        if node.order.client == client {
          ghost var mid, queue := arena.nodes, keys;
          var gone := UnlinkLive(arena, key, at);
          MidwayDrops(before, was, mid, queue, arena.nodes, i, at, client);
          removed := removed + [gone];
        } else {
          at := at + 1;
        }
        i := i + 1;
      }
      EndOfWalk(before, was, arena.nodes, keys, at, client);
    }

    /** An order written down in place: no link moves. */
    method WriteDown(arena: Arena, key: Key, remaining: nat) returns (ghost at: nat)
      requires arena.Valid() && Linked(arena.nodes) && key in keys
      modifies arena
      ensures arena.Valid() && Linked(arena.nodes) && Untouched(old(arena.nodes), arena.nodes, keys)
      ensures arena.nodes.Keys == old(arena.nodes).Keys && at < |keys| && keys[at] == key
      ensures Orders(arena.nodes) ==
              old(Orders(arena.nodes))[at := old(Orders(arena.nodes))[at].(remaining := remaining)]
    {
      at :| at < |keys| && keys[at] == key;
      Neighbours(arena.nodes, keys, at);
      var order := arena.nodes[key].order;
      Rewritten(arena.nodes, keys, at, order.(remaining := remaining));
      arena.nodes := arena.nodes[key := arena.nodes[key].(order := order.(remaining := remaining))];
    }

    /** The queue as the allocation policy sees it, and the keys behind it. */
    method CollectMakers(arena: Arena) returns (makers: seq<Maker>, found: seq<Key>)
      requires Linked(arena.nodes)
      ensures makers == MakersOf(Orders(arena.nodes)) && found == keys
    {
      makers, found := [], [];
      var next, remaining := head, len;
      while next.Some?
        invariant |found| <= |keys| && found == keys[..|found|]
        invariant makers == MakersOf(Orders(arena.nodes))[..|found|]
        invariant next == At(keys, |found|) && remaining == |keys| - |found|
        decreases remaining
      {
        assert LinkedAt(arena.nodes, keys, |found|);
        var node := arena.nodes[next.value];
        makers := makers + [Maker(node.order.remaining, node.order.arrival)];
        found := found + [next.value];
        next := node.next;
        remaining := remaining - 1;
      }
    }

    // The same among other queues of the arena, none of which notices.

    method PushBack(arena: Arena, order: Order, ghost family: set<LevelQueue>) returns (key: Key)
      requires this in family && Apart(family, arena)
      modifies this, arena
      ensures Apart(family, arena)
      ensures key !in old(arena.nodes) && keys == old(keys) + [key]
      ensures Orders(arena.nodes) == old(Orders(arena.nodes)) + [order]
      ensures forall q :: q in family && q != this ==>
                q.keys == old(q.keys) && q.Orders(arena.nodes) == old(q.Orders(arena.nodes))
    {
      ghost var before, was := arena.nodes, keys;
      hide Chained, OrdersAt, Untouched;
      key := LinkBack(arena, order);
      FamilyStays(family, before, arena.nodes, this, was);
    }

    /** A stale key does nothing; a live key of another queue is the caller's bug. */
    method RemoveKey(arena: Arena, key: Key, ghost family: set<LevelQueue>)
      returns (removed: Option<Order>, ghost at: nat)
      requires this in family && Apart(family, arena)
      requires key in arena.nodes ==> key in keys
      modifies this, arena
      ensures Apart(family, arena)
      ensures key !in old(arena.nodes) ==>
                removed == None && arena.nodes == old(arena.nodes) && keys == old(keys)
      ensures key in old(arena.nodes) ==>
                && at < |old(keys)| && old(keys)[at] == key && keys == Cut(old(keys), at)
                && removed == Some(old(Orders(arena.nodes))[at])
                && Orders(arena.nodes) == Cut(old(Orders(arena.nodes)), at)
      ensures forall q :: q in family && q != this ==>
                q.keys == old(q.keys) && q.Orders(arena.nodes) == old(q.Orders(arena.nodes))
    {
      ghost var before, was := arena.nodes, keys;
      hide Chained, OrdersAt, Untouched;
      removed, at := UnlinkKey(arena, key);
      FamilyStays(family, before, arena.nodes, this, was);
    }

    method RemoveClient(arena: Arena, client: ClientId, ghost family: set<LevelQueue>) returns (removed: seq<Order>)
      requires this in family && Apart(family, arena)
      modifies this, arena
      ensures Apart(family, arena)
      ensures removed == Own(old(Orders(arena.nodes)), client)
      ensures Orders(arena.nodes) == Foreign(old(Orders(arena.nodes)), client)
      ensures forall q :: q in family && q != this ==>
                q.keys == old(q.keys) && q.Orders(arena.nodes) == old(q.Orders(arena.nodes))
    {
      ghost var before, was := arena.nodes, keys;
      hide Chained, OrdersAt, Untouched;
      removed := UnlinkClient(arena, client);
      FamilyStays(family, before, arena.nodes, this, was);
    }

    method Refill(arena: Arena, key: Key, remaining: nat, ghost family: set<LevelQueue>) returns (ghost at: nat)
      requires this in family && Apart(family, arena) && key in keys
      modifies arena
      ensures Apart(family, arena)
      ensures at < |keys| && keys[at] == key
      ensures Orders(arena.nodes) ==
              old(Orders(arena.nodes))[at := old(Orders(arena.nodes))[at].(remaining := remaining)]
      ensures forall q :: q in family && q != this ==> q.Orders(arena.nodes) == old(q.Orders(arena.nodes))
    {
      ghost var before, was := arena.nodes, keys;
      hide Chained, OrdersAt, Untouched;
      at := WriteDown(arena, key, remaining);
      FamilyStays(family, before, arena.nodes, this, was);
    }
  }

  /** Several queues in one arena, no two with a key in common. */
  ghost predicate Apart(family: set<LevelQueue>, arena: Arena)
    reads family, arena
  {
    && arena.Valid()
    && (forall q :: q in family ==> q.Linked(arena.nodes))
    && (forall q, r :: q in family && r in family && q != r ==> Disjoint(q.keys, r.keys))
  }

  /** Whatever one queue does to its own nodes, the others do not notice. */
  lemma FamilyStays(family: set<LevelQueue>, before: map<Key, Node>, after: map<Key, Node>, me: LevelQueue,
                    was: seq<Key>)
    requires me in family && me.Linked(after)
    requires forall q :: q in family && q != me ==> q.Linked(before) && Disjoint(q.keys, was)
    requires forall q, r :: q in family && r in family && q != me && r != me && q != r ==> Disjoint(q.keys, r.keys)
    requires Untouched(before, after, was)
    requires forall key :: key in me.keys ==> key in was || key !in before
    ensures forall q :: q in family ==> q.Linked(after)
    ensures forall q, r :: q in family && r in family && q != r ==> Disjoint(q.keys, r.keys)
    ensures forall q :: q in family && q != me ==> q.Orders(after) == q.Orders(before)
  {
    forall q | q in family && q != me
      ensures q.Linked(after) && q.Orders(after) == q.Orders(before)
      ensures Disjoint(q.keys, me.keys) && Disjoint(me.keys, q.keys)
    {
      ElsewhereUntouched(before, after, was, q.keys);
      LiveKeys(before, q.keys);
    }
  }

  lemma LiveKeys(nodes: map<Key, Node>, keys: seq<Key>)
    requires Chained(nodes, keys)
    ensures forall key :: key in keys ==> key in nodes
  {}

  /** A node's links lead to its neighbours, which are live and not itself. */
  lemma Neighbours(nodes: map<Key, Node>, keys: seq<Key>, i: nat)
    requires Chained(nodes, keys) && i < |keys|
    ensures keys[i] in nodes
    ensures nodes[keys[i]].previous == At(keys, i - 1) && nodes[keys[i]].next == At(keys, i + 1)
    ensures i > 0 ==> keys[i - 1] in nodes && keys[i - 1] != keys[i]
    ensures i + 1 < |keys| ==> keys[i + 1] in nodes && keys[i + 1] != keys[i] && (i > 0 ==> keys[i + 1] != keys[i - 1])
  {
    assert LinkedAt(nodes, keys, i);
  }

  lemma CutEnds(keys: seq<Key>, i: nat)
    requires i < |keys|
    ensures At(Cut(keys, i), 0) == if i == 0 then At(keys, 1) else At(keys, 0)
    ensures At(Cut(keys, i), |keys| - 2) == if i == |keys| - 1 then At(keys, |keys| - 2) else At(keys, |keys| - 1)
    ensures forall key :: key in Cut(keys, i) ==> key in keys
  {}

  lemma OrderBehind(nodes: map<Key, Node>, keys: seq<Key>, i: nat)
    requires Chained(nodes, keys) && i < |keys|
    ensures |OrdersAt(nodes, keys)| == |keys|
    ensures keys[i] in nodes && OrdersAt(nodes, keys)[i] == nodes[keys[i]].order
  {}

  lemma UntouchedTwice(a: map<Key, Node>, b: map<Key, Node>, c: map<Key, Node>, mine: seq<Key>, fewer: seq<Key>)
    requires Untouched(a, b, mine) && Untouched(b, c, fewer) && forall key :: key in fewer ==> key in mine
    ensures Untouched(a, c, mine)
  {}

  /** Taking a key out by position or by name is the same thing: the book's view
      of a level, a sequence of keys thinned by name, is this queue's. */
  lemma {:induction false} CutIsKeep(keys: seq<Key>, i: nat)
    requires NoRepeats(keys) && i < |keys|
    ensures Cut(keys, i) == Keep(keys, {keys[i]})
  {
    var n := |keys| - 1;
    if i == n {
      KeepOthers(keys[..n], keys[n]);
    } else {
      CutIsKeep(keys[..n], i);
      assert Cut(keys, i) == Cut(keys[..n], i) + [keys[n]];
    }
  }

  lemma {:induction false} KeepOthers(keys: seq<Key>, key: Key)
    requires key !in keys
    ensures Keep(keys, {key}) == keys
  {
    if keys != [] {
      KeepOthers(keys[..|keys| - 1], key);
    }
  }

  // ------------------------------------------- walking the queue for a client

  /** From position `at` on the queue is what it was from position `i` on, and
      before that it is some of what it was. */
  ghost predicate Ahead(keys: seq<Key>, at: nat, was: seq<Key>, i: nat) {
    at <= |keys| && i <= |was| && keys[at..] == was[i..] && forall key :: key in keys ==> key in was
  }

  lemma AheadSteps(keys: seq<Key>, at: nat, was: seq<Key>, i: nat)
    requires Ahead(keys, at, was, i) && i < |was|
    ensures at < |keys| && keys[at] == was[i] && At(keys, at + 1) == At(was, i + 1)
    ensures Ahead(Cut(keys, at), at, was, i + 1) && Ahead(keys, at + 1, was, i + 1)
  {
    assert keys[at] == keys[at..][0] == was[i..][0];
    assert keys[at..][1..] == was[i..][1..];
    assert At(keys, at + 1) == (if |keys[at..]| > 1 then Some(keys[at..][1]) else None);
    assert At(was, i + 1) == (if |was[i..]| > 1 then Some(was[i..][1]) else None);
  }

  /** The orders now: what is kept of the first `i`, then the rest. */
  ghost predicate Walked(now: seq<Order>, orders: seq<Order>, i: nat, at: nat, client: ClientId) {
    i <= |orders| && at == |Foreign(orders[..i], client)| && now == Foreign(orders[..i], client) + orders[i..]
  }

  lemma WalkSteps(now: seq<Order>, orders: seq<Order>, i: nat, at: nat, client: ClientId)
    requires Walked(now, orders, i, at, client) && i < |orders|
    ensures at < |now| && now[at] == orders[i]
    ensures orders[i].client == client ==>
              && Walked(Cut(now, at), orders, i + 1, at, client)
              && Own(orders[..i + 1], client) == Own(orders[..i], client) + [orders[i]]
    ensures orders[i].client != client ==>
              Walked(now, orders, i + 1, at + 1, client) && Own(orders[..i + 1], client) == Own(orders[..i], client)
  {
    assert orders[..i + 1][..i] == orders[..i];
    var foreign := Foreign(orders[..i], client);
    assert Cut(foreign + orders[i..], |foreign|) == foreign + orders[i + 1..];
    assert foreign + orders[i..] == foreign + [orders[i]] + orders[i + 1..];
  }

  ghost predicate Midway(before: map<Key, Node>, was: seq<Key>, nodes: map<Key, Node>, keys: seq<Key>, i: nat, at: nat,
                         client: ClientId) {
    && Chained(before, was) && Chained(nodes, keys) && Untouched(before, nodes, was)
    && Ahead(keys, at, was, i)
    && Walked(OrdersAt(nodes, keys), OrdersAt(before, was), i, at, client)
  }

  lemma StartOfWalk(nodes: map<Key, Node>, keys: seq<Key>, client: ClientId)
    requires Chained(nodes, keys)
    ensures |OrdersAt(nodes, keys)| == |keys|
    ensures Midway(nodes, keys, nodes, keys, 0, 0, client) && Own(OrdersAt(nodes, keys)[..0], client) == []
  {}

  lemma MidwaySteps(before: map<Key, Node>, was: seq<Key>, nodes: map<Key, Node>, keys: seq<Key>, i: nat, at: nat,
                    client: ClientId)
    requires Midway(before, was, nodes, keys, i, at, client) && i < |was|
    ensures at < |keys| && keys[at] == was[i] && keys[at] in nodes && nodes[keys[at]].next == At(was, i + 1)
    ensures |OrdersAt(before, was)| == |was| && |OrdersAt(nodes, keys)| == |keys|
    ensures OrdersAt(nodes, keys)[at] == nodes[keys[at]].order == OrdersAt(before, was)[i]
    ensures var orders := OrdersAt(before, was);
            && Own(orders[..i + 1], client) ==
               (if orders[i].client == client then Own(orders[..i], client) + [orders[i]] else Own(orders[..i], client))
            && (orders[i].client != client ==> Midway(before, was, nodes, keys, i + 1, at + 1, client))
  {
    AheadSteps(keys, at, was, i);
    Neighbours(nodes, keys, at);
    OrderBehind(nodes, keys, at);
    OrderBehind(before, was, i);
    hide Chained, Untouched, OrdersAt, Ahead, Walked, Own;
    WalkSteps(OrdersAt(nodes, keys), OrdersAt(before, was), i, at, client);
  }

  lemma MidwayDrops(before: map<Key, Node>, was: seq<Key>, mid: map<Key, Node>, queue: seq<Key>, after: map<Key, Node>,
                    i: nat, at: nat, client: ClientId)
    requires Midway(before, was, mid, queue, i, at, client) && i < |was| && at < |queue|
    requires |OrdersAt(before, was)| == |was| && |OrdersAt(mid, queue)| == |queue|
    requires OrdersAt(before, was)[i].client == client
    requires Chained(after, Cut(queue, at)) && Untouched(mid, after, queue)
    requires OrdersAt(after, Cut(queue, at)) == Cut(OrdersAt(mid, queue), at)
    ensures Midway(before, was, after, Cut(queue, at), i + 1, at, client)
  {
    UntouchedTwice(before, mid, after, was, queue);
    AheadSteps(queue, at, was, i);
    hide Chained, Untouched, OrdersAt, Ahead, Walked, Own, Cut;
    WalkSteps(OrdersAt(mid, queue), OrdersAt(before, was), i, at, client);
  }

  lemma EndOfWalk(before: map<Key, Node>, was: seq<Key>, nodes: map<Key, Node>, keys: seq<Key>, at: nat,
                  client: ClientId)
    requires Midway(before, was, nodes, keys, |was|, at, client)
    ensures Untouched(before, nodes, was) && forall key :: key in keys ==> key in was
    ensures |OrdersAt(before, was)| == |was|
    ensures OrdersAt(nodes, keys) == Foreign(OrdersAt(before, was), client)
    ensures Own(OrdersAt(before, was)[..|was|], client) == Own(OrdersAt(before, was), client)
  {
    OrderCount(before, was);
    assert OrdersAt(before, was)[..|was|] == OrdersAt(before, was);
  }

  lemma OrderCount(nodes: map<Key, Node>, keys: seq<Key>)
    requires Chained(nodes, keys)
    ensures |OrdersAt(nodes, keys)| == |keys|
  {}
}
