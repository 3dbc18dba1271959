/** The doubly linked list: the nodes in place, and the sequence of data they stand for. */
module Plist {
  import opened Options

  class Node<T> {
    var data: T
    var prev: Node?<T>
    var next: Node?<T>

    constructor (d: T)
      ensures data == d
    {
      data, prev, next := d, null, null;
    }
  }

  /** The node at a place, or null beyond the ends. */
  function At<T>(nodes: seq<Node<T>>, i: int): Node?<T> { if 0 <= i < |nodes| then nodes[i] else null }

  function Inserted<T>(s: seq<T>, k: nat, x: T): (r: seq<T>)
    requires k <= |s|
    ensures |r| == |s| + 1
  {
    s[..k] + [x] + s[k..]
  }

  lemma InsertedAt<T>(s: seq<T>, k: nat, x: T)
    requires k <= |s|
    ensures |Inserted(s, k, x)| == |s| + 1
    ensures forall i {:trigger Inserted(s, k, x)[i]} | 0 <= i <= |s| ::
      Inserted(s, k, x)[i] == if i < k then s[i] else if i == k then x else s[i - 1] {}

  lemma RemovedAt<T>(s: seq<T>, k: nat)
    requires k < |s|
    ensures |Removed(s, k)| == |s| - 1
    ensures forall i {:trigger Removed(s, k)[i]} | 0 <= i < |s| - 1 ::
            Removed(s, k)[i] == if i < k then s[i] else s[i + 1] {}

  lemma AtInserted<T>(nodes: seq<Node<T>>, k: nat, x: Node<T>, i: int)
    requires k <= |nodes|
    ensures At(Inserted(nodes, k, x), i) == if i < k then At(nodes, i) else if i == k then x else At(nodes, i - 1) {}

  lemma AtRemoved<T>(nodes: seq<Node<T>>, k: nat, i: int)
    requires k < |nodes|
    ensures At(Removed(nodes, k), i) == At(nodes, if i < k then i else i + 1) {}

  predicate AllDiffer<T>(nodes: seq<Node<T>>) { forall i, j | 0 <= i < j < |nodes| :: nodes[i] != nodes[j] }

  lemma DifferInserted<T>(nodes: seq<Node<T>>, k: nat, x: Node<T>)
    requires k <= |nodes| && AllDiffer(nodes) && x !in nodes
    ensures AllDiffer(Inserted(nodes, k, x)) {}

  lemma DifferRemoved<T>(nodes: seq<Node<T>>, k: nat)
    requires k < |nodes| && AllDiffer(nodes)
    ensures AllDiffer(Removed(nodes, k)) {}

  function Removed<T>(s: seq<T>, k: nat): (r: seq<T>)
    requires k < |s|
    ensures |r| == |s| - 1
  {
    s[..k] + s[k + 1..]
  }

  const GREATER := 2

  type Order<!T> = (T, T) -> int

  predicate Leq<T>(sort: Order<T>, a: T, b: T) { sort(a, b) != GREATER }

  ghost predicate TotalPreorder<T(!new)>(sort: Order<T>) {
    && (forall a, b :: Leq(sort, a, b) || Leq(sort, b, a))
    && (forall a, b, c :: Leq(sort, a, b) && Leq(sort, b, c) ==> Leq(sort, a, c))
  }

  ghost predicate Sorted<T>(sort: Order<T>, s: seq<T>) {
    forall i, j | 0 <= i < j < |s| :: Leq(sort, s[i], s[j])
  }

  /** Where the search from the tail stops: behind the last element that is not greater. */
  function Slot<T>(sort: Order<T>, s: seq<T>, x: T): (k: nat)
    ensures k <= |s| && (k > 0 ==> Leq(sort, s[k - 1], x))
    ensures forall i | k <= i < |s| :: !Leq(sort, s[i], x)
  {
    if |s| == 0 || Leq(sort, s[|s| - 1], x) then |s| else Slot(sort, s[..|s| - 1], x)
  }

  /** The slot is the one stable place: all elements that are not greater, the equal ones among them, come
      before it ... */
  lemma SlotStable<T(!new)>(sort: Order<T>, s: seq<T>, x: T, i: nat)
    requires TotalPreorder(sort) && Sorted(sort, s) && i < |s|
    ensures i < Slot(sort, s, x) <==> Leq(sort, s[i], x)
  {
    var k := Slot(sort, s, x);
    if i + 1 < k { assert Leq(sort, s[i], s[k - 1]) && Leq(sort, s[k - 1], x); }
  }

  /** ... a sorted list stays sorted ... */
  lemma SlotSorts<T(!new)>(sort: Order<T>, s: seq<T>, x: T)
    requires TotalPreorder(sort) && Sorted(sort, s)
    ensures Sorted(sort, Inserted(s, Slot(sort, s, x), x))
  {
    var k := Slot(sort, s, x);
    var t := Inserted(s, k, x);
    forall i, j | 0 <= i < j < |t| ensures Leq(sort, t[i], t[j]) {
      if i < k { SlotStable(sort, s, x, i); }
      if k < j { SlotStable(sort, s, x, j - 1); assert Leq(sort, t[j], x) || Leq(sort, x, t[j]); }
    }
  }

  /** ... and one element is added. */
  lemma InsertedOne<T>(s: seq<T>, k: nat, x: T)
    requires k <= |s|
    ensures multiset(Inserted(s, k, x)) == multiset(s) + multiset{x}
  {
    assert s == s[..k] + s[k..];
  }

  function Reversed<T>(s: seq<T>): (r: seq<T>)
    ensures |r| == |s| && forall i | 0 <= i < |s| :: r[i] == s[|s| - 1 - i]
  {
    seq(|s|, i requires 0 <= i < |s| => s[|s| - 1 - i])
  }

  /** dfs_plist_iter_t */
  class Iter<T> {
    var fromHead: bool
    var next: Node?<T>

    constructor (fromHead: bool, next: Node?<T>)
      ensures this.fromHead == fromHead && this.next == next
    {
      this.fromHead, this.next := fromHead, next;
    }

    /** dfs_plist_next: the node the iterator is at, and one step in its direction. */
    method Next() returns (current: Node?<T>)
      modifies this
      ensures current == old(next) && fromHead == old(fromHead)
      ensures next == if current == null then null else if fromHead then current.next else current.prev
    {
      current := next;
      if current != null {
        if fromHead { next := current.next; } else { next := current.prev; }
      }
    }
  }

  class Plist<T> {
    var head: Node?<T>
    var tail: Node?<T>
    var size: nat
    ghost var nodes: seq<Node<T>>

    /** The node at place i is linked to its neighbours. */
    ghost predicate LinkAt(i: nat)
      requires i < |nodes|
      reads this, nodes
    {
      nodes[i].prev == At(nodes, i - 1) && nodes[i].next == At(nodes, i + 1)
    }

    ghost predicate Valid()
      reads this, nodes
    {
      && size == |nodes| && head == At(nodes, 0) && tail == At(nodes, |nodes| - 1)
      && AllDiffer(nodes)
      && forall i | 0 <= i < |nodes| :: LinkAt(i)
    }

    /** What the list holds, from the head on. */
    ghost function Items(): (s: seq<T>)
      reads this, nodes
      ensures |s| == |nodes|
    {
      seq(|nodes|, i requires 0 <= i < |nodes| reads this, nodes => nodes[i].data)
    }

    constructor ()
      ensures Valid() && Items() == [] && nodes == []
    {
      head, tail, size, nodes := null, null, 0, [];
    }

    /** dfs_plist_addnode_head; mem tells whether both allocations succeed. */
    method AddHead(data: T, mem: bool) returns (ok: bool)
      requires Valid()
      modifies this, nodes
      ensures Valid() && ok == mem
      ensures ok ==> |nodes| == |old(nodes)| + 1 && fresh(nodes[0]) && nodes[1..] == old(nodes)
      ensures ok ==> Items() == [data] + old(Items())
      ensures !ok ==> nodes == old(nodes) && Items() == old(Items())
    {
      if !mem { return false; }
      var node := new Node(data);
      if size == 0 {
        node.prev, node.next := null, null;
        head, tail := node, node;
      } else {
        node.prev := null;
        node.next := head;
        head.prev := node;
        head := node;
      }
      size := size + 1;
      nodes := [node] + nodes;
      forall i | 0 <= i < |nodes| ensures LinkAt(i) { if i > 0 { assert old(LinkAt(i - 1)); } }
      ok := true;
    }

    /** dfs_plist_addnode_tail */
    method AddTail(data: T, mem: bool) returns (ok: bool)
      requires Valid()
      modifies this, nodes
      ensures Valid() && ok == mem
      ensures ok ==> |nodes| == |old(nodes)| + 1 && fresh(nodes[|old(nodes)|]) && nodes[..|old(nodes)|] == old(nodes)
      ensures ok ==> Items() == old(Items()) + [data]
      ensures !ok ==> nodes == old(nodes) && Items() == old(Items())
    {
      if !mem { return false; }
      var node := new Node(data);
      if size == 0 {
        node.prev, node.next := null, null;
        head, tail := node, node;
      } else {
        node.next := null;
        node.prev := tail;
        tail.next := node;
        tail := node;
      }
      size := size + 1;
      nodes := nodes + [node];
      forall i | 0 <= i < |nodes| ensures LinkAt(i) { if i < |nodes| - 1 { assert old(LinkAt(i)); } }
      ok := true;
    }

    /** All but the ends of the list. */
    ghost predicate Chained()
      reads this, nodes
    {
      && size == |nodes|
      && AllDiffer(nodes)
      && forall i | 0 <= i < |nodes| :: LinkAt(i)
    }

    /** Lets the neighbours of a new node, which knows them already, know it. */
    method Hook(node: Node<T>, ghost at: nat)
      requires at <= |nodes| && node !in nodes && AllDiffer(nodes)
      requires node.prev == At(nodes, at - 1) && node.next == At(nodes, at)
      modifies nodes`prev, nodes`next
      ensures forall i | 0 <= i < |nodes| ::
        && nodes[i].next == (if i == at - 1 then node else old(nodes[i].next))
        && nodes[i].prev == if i == at then node else old(nodes[i].prev)
    {
      if node.prev != null { node.prev.next := node; }
      if node.next != null { node.next.prev := node; }
    }

    method Join(node: Node<T>, ghost at: nat)
      requires Chained() && at <= |nodes| && node !in nodes
      requires node.prev == At(nodes, at - 1) && node.next == At(nodes, at)
      requires head == (if at == 0 then node else At(nodes, 0))
      requires tail == (if at == |nodes| then node else At(nodes, |nodes| - 1))
      modifies this, nodes
      ensures Valid() && nodes == Inserted(old(nodes), at, node)
      ensures Items() == Inserted(old(Items()), at, old(node.data))
    {
      hide Inserted, AllDiffer, At;
      ghost var was, items := nodes, Items();
      assert forall i | 0 <= i < |nodes| :: LinkAt(i);
      Hook(node, at);
      size := size + 1;
      nodes := Inserted(was, at, node);
      InsertedAt(was, at, node);
      DifferInserted(was, at, node);
      AtInserted(was, at, node, 0);
      AtInserted(was, at, node, |was|);
      forall i | 0 <= i < |nodes| ensures LinkAt(i) {
        AtInserted(was, at, node, i);
        AtInserted(was, at, node, i - 1);
        AtInserted(was, at, node, i + 1);
        if i < at { assert old(LinkAt(i)); } else if i > at { assert old(LinkAt(i - 1)); }
      }
      InsertedAt(items, at, old(node.data));
    }

    /** dfs_plist_insert_node: before or behind a node of the list. */
    method InsertNode(oldNode: Node<T>, ghost k: nat, data: T, after: bool, mem: bool) returns (ok: bool)
      requires Valid() && k < |nodes| && nodes[k] == oldNode
      modifies this, nodes
      ensures Valid() && ok == mem
      ensures ok ==> Items() == Inserted(old(Items()), if after then k + 1 else k, data)
      ensures !ok ==> nodes == old(nodes) && Items() == old(Items())
    {
      if !mem { return false; }
      assert LinkAt(k);
      var node := new Node(data);
      if after {
        node.prev := oldNode;
        node.next := oldNode.next;
        if tail == oldNode { tail := node; }
      } else {
        node.next := oldNode;
        node.prev := oldNode.prev;
        if head == oldNode { head := node; }
      }
      assert Items() == old(Items());
      forall i | 0 <= i < |nodes| ensures LinkAt(i) { assert old(LinkAt(i)); }
      Join(node, if after then k + 1 else k);
      ok := true;
    }

    /** dfs_plist_insert_sort */
    method InsertSort(sort: Order<T>, data: T, mem: bool) returns (ok: bool)
      requires Valid()
      modifies this, nodes
      ensures Valid() && ok == mem
      ensures ok ==> Items() == Inserted(old(Items()), Slot(sort, old(Items()), data), data)
      ensures !ok ==> nodes == old(nodes) && Items() == old(Items())
    {
      if !mem { return false; }
      ghost var items := Items();
      if size == 0 {
        ok := AddTail(data, mem);
        return;
      }
      var p := tail;
      if sort(p.data, data) != GREATER {
        ok := AddTail(data, mem);
        return;
      }
      ghost var k := |nodes|;
      var node := new Node(data);
      while p != null
        invariant 0 <= k <= |nodes| && p == At(nodes, k - 1) && Valid() && Items() == items && nodes == old(nodes)
        invariant node !in nodes && node.data == data
        invariant Slot(sort, items, data) <= k
        decreases k
      {
        assert p.data == items[k - 1];
        if sort(p.data, data) == GREATER {
          assert LinkAt(k - 1);
          p := p.prev;
          k := k - 1;
        } else {
          break;
        }
      }
      assert Slot(sort, items, data) == k;
      Place(node, p, k);
      ok := true;
    }

    /** Links a new node behind p, or in front of all when p is null. */
    method Place(node: Node<T>, p: Node?<T>, ghost k: nat)
      requires Valid() && |nodes| > 0 && node !in nodes && k <= |nodes| && p == At(nodes, k - 1)
      modifies this, nodes, node
      ensures Valid() && Items() == Inserted(old(Items()), k, old(node.data))
    {
      if p != null {
        assert LinkAt(k - 1);
        node.prev := p;
        node.next := p.next;
        if tail == p { tail := node; }
      } else {
        node.prev := null;
        node.next := head;
        head := node;
      }
      forall i | 0 <= i < |nodes| ensures LinkAt(i) { assert old(LinkAt(i)); }
      Join(node, k);
    }

    /** dfs_plist_pop_head */
    method PopHead() returns (r: Option<T>)
      requires Valid()
      modifies this, nodes
      ensures Valid()
      ensures r == if |old(Items())| == 0 then None else Some(old(Items())[0])
      ensures Items() == if |old(Items())| == 0 then [] else old(Items())[1..]
    {
      if head == null { return None; }
      r := Some(head.data);
      DelNode(head, 0);
    }

    lemma Seen(k: nat)
      requires Valid() && k < |nodes|
      ensures nodes[k].next == At(nodes, k + 1) && nodes[k].prev == At(nodes, k - 1) && nodes[k].data == Items()[k]
    {
      assert LinkAt(k);
    }

    lemma Ends()
      requires Valid()
      ensures head == At(nodes, 0) && tail == At(nodes, |nodes| - 1) && |Items()| == |nodes| == size {}

    /** The data in the order of an iterator: from the tail it is exactly the reverse. */
    method Traverse(fromHead: bool) returns (s: seq<T>)
      requires Valid()
      ensures s == if fromHead then Items() else Reversed(Items())
    {
      hide Valid, Items;
      Ends();
      s := [];
      ghost var items := Items();
      var iter := new Iter(fromHead, if fromHead then head else tail);
      ghost var order := if fromHead then Items() else Reversed(Items());
      ghost var n := 0;
      var node := iter.Next();
      while node != null
        invariant Valid() && Items() == items && nodes == old(nodes)
        invariant 0 <= n <= |nodes| && s == order[..n] && fresh(iter) && iter.fromHead == fromHead
        invariant node == At(nodes, if fromHead then n else |nodes| - 1 - n)
        invariant node != null ==> iter.next == if fromHead then node.next else node.prev
        decreases |nodes| - n
      {
        Seen(if fromHead then n else |nodes| - 1 - n);
        assert order[..n + 1] == order[..n] + [node.data];
        s := s + [node.data];
        n := n + 1;
        node := iter.Next();
      }
    }

    /** The test of a search: the match function of the list, or, without one, whether the key is the address of the
        node's own data; owner is the node whose data has that address, if one has. */
    predicate Hit(matches: Option<(T, T) -> bool>, key: T, owner: Node?<T>, node: Node<T>)
      reads node
    {
      match matches
      case Some(f) => f(node.data, key)
      case None => node == owner
    }

    /** dfs_plist_search_key and dfs_plist_tail_search_key: the first match from either end. When no memory for the
        iterator can be had (mem) the code follows a null pointer. */
    method Search(matches: Option<(T, T) -> bool>, key: T, owner: Node?<T>, fromHead: bool, mem: bool)
        returns (node: Node?<T>, crash: bool, ghost k: int)
      requires Valid()
      ensures crash <==> !mem
      ensures !crash && node == null ==> forall i | 0 <= i < |nodes| :: !Hit(matches, key, owner, nodes[i])
      ensures !crash && node != null ==> 0 <= k < |nodes| && node == nodes[k] && Hit(matches, key, owner, node)
      ensures !crash && node != null ==>
        forall i | 0 <= i < |nodes| && (if fromHead then i < k else i > k) :: !Hit(matches, key, owner, nodes[i])
    {
      k := if fromHead then 0 else |nodes| - 1;
      if !mem { return null, true, k; }
      crash := false;
      var iter := new Iter(fromHead, if fromHead then head else tail);
      node := iter.Next();
      while node != null
        invariant -1 <= k <= |nodes| && node == At(nodes, k) && fresh(iter) && iter.fromHead == fromHead
        invariant node != null ==> iter.next == if fromHead then node.next else node.prev
        invariant forall i | 0 <= i < |nodes| && (if fromHead then i < k else i > k) ::
                  !Hit(matches, key, owner, nodes[i])
        decreases if fromHead then |nodes| - k else k
      {
        assert LinkAt(k);
        if Hit(matches, key, owner, node) { return; }
        k := if fromHead then k + 1 else k - 1;
        node := iter.Next();
      }
    }

    /** dfs_plist_dup: a new list of the same data; mem and iterMem tell whether the list itself and the iterator can be
        had, room how many nodes. Without the iterator the code follows a null pointer. */
    method Dup(mem: bool, iterMem: bool, room: nat) returns (copy: Plist?<T>, crash: bool)
      requires Valid()
      ensures crash <==> mem && !iterMem
      ensures copy != null <==> mem && iterMem && |nodes| <= room
      ensures copy != null ==> copy.Valid() && fresh(copy) && fresh(copy.nodes) && copy.Items() == Items()
    {
      hide Valid, Items;
      Ends();
      if !mem { return null, false; }
      var list := new Plist<T>();
      if !iterMem { return null, true; }
      var iter := new Iter(true, head);
      ghost var n, items := 0, Items();
      var left := room;
      var node := iter.Next();
      while node != null
        invariant 0 <= n <= |nodes| && n + left == room && node == At(nodes, n)
        invariant fresh(iter) && iter.fromHead && (node != null ==> iter.next == node.next)
        invariant list.Valid() && fresh(list) && fresh(list.nodes) && list.Items() == items[..n]
        decreases |nodes| - n
      {
        Seen(n);
        assert items[..n + 1] == items[..n] + [items[n]];
        var ok := list.AddTail(node.data, left > 0);
        if !ok { return null, false; }
        n, left := n + 1, left - 1;
        node := iter.Next();
      }
      assert items[..n] == items;
      copy, crash := list, false;
    }

    /** Links the neighbours of a node to each other, or an end of the list to the one there is. */
    method Unhook(node: Node<T>, ghost k: nat)
      requires Valid() && k < |nodes| && nodes[k] == node
      modifies `head, `tail, nodes`prev, nodes`next
      ensures forall i | 0 <= i < |nodes| && i != k ::
        && nodes[i].next == (if i == k - 1 then At(nodes, k + 1) else old(nodes[i].next))
        && nodes[i].prev == if i == k + 1 then At(nodes, k - 1) else old(nodes[i].prev)
      ensures head == (if k == 0 then At(nodes, 1) else old(head))
      ensures tail == if k == |nodes| - 1 then At(nodes, k - 1) else old(tail)
    {
      assert LinkAt(k);
      if node.prev != null { node.prev.next := node.next; } else { head := node.next; }
      if node.next != null { node.next.prev := node.prev; } else { tail := node.prev; }
    }

    /** dfs_plist_del_node */
    method DelNode(node: Node<T>, ghost k: nat)
      requires Valid() && k < |nodes| && nodes[k] == node
      modifies this, nodes
      ensures Valid() && nodes == Removed(old(nodes), k) && Items() == Removed(old(Items()), k)
    {
      hide Removed, AllDiffer, At;
      ghost var was, items := nodes, Items();
      assert forall i | 0 <= i < |nodes| :: LinkAt(i);
      Unhook(node, k);
      size := size - 1;
      nodes := Removed(was, k);
      RemovedAt(was, k);
      DifferRemoved(was, k);
      AtRemoved(was, k, 0);
      AtRemoved(was, k, |was| - 2);
      forall i | 0 <= i < |nodes| ensures LinkAt(i) {
        AtRemoved(was, k, i);
        AtRemoved(was, k, i - 1);
        AtRemoved(was, k, i + 1);
        if i < k { assert old(LinkAt(i)); } else { assert old(LinkAt(i + 1)); }
      }
      RemovedAt(items, k);
    }
  }
}
