/** The chained hash table: buckets of linked nodes, refining a map for any hash function. */
module Hash {
  import opened Options

  class Node<V> {
    const key: string
    const value: V
    var prev: Node?<V>
    var next: Node?<V>

    constructor (key: string, value: V)
      ensures this.key == key && this.value == value && prev == null && next == null
    {
      this.key, this.value, prev, next := key, value, null, null;
    }
  }

  type Chain<V> = seq<Node<V>>

  type HashFunc = (nat, string) -> nat

  function At<V>(c: Chain<V>, i: int): Node?<V> { if 0 <= i < |c| then c[i] else null }

  // --------------------------------------------------------------- the table as values

  /** All pointers of a table: those of its nodes and the firsts of its buckets. */
  datatype Links<!V> = Links(prev: map<Node<V>, Node?<V>>, next: map<Node<V>, Node?<V>>, first: seq<Node?<V>>)

  /** Node i of the chain of bucket b: in its key's bucket, linked to its neighbours, with the value of its key. */
  ghost predicate NodeOk<V>(l: Links<V>, c: Chain<V>, b: nat, i: nat, h: HashFunc, m: map<string, V>)
    requires i < |c|
  {
    var n := c[i];
    && n in l.prev && n in l.next && h(|l.first|, n.key) == b
    && l.prev[n] == At(c, i - 1) && l.next[n] == At(c, i + 1)
    && n.key in m && m[n.key] == n.value
  }

  /** No key twice. */
  ghost predicate KeysDiffer<V>(c: Chain<V>) {
    forall i, j | 0 <= i < j < |c| :: c[i].key != c[j].key
  }

  ghost predicate ChainOk<V>(l: Links<V>, c: Chain<V>, b: nat, h: HashFunc, m: map<string, V>)
    requires b < |l.first|
  {
    l.first[b] == At(c, 0) && KeysDiffer(c) && forall i | 0 <= i < |c| :: NodeOk(l, c, b, i, h, m)
  }

  /** The key is in its chain. */
  ghost predicate Found<V>(chains: seq<Chain<V>>, h: HashFunc, key: string) {
    var b := h(|chains|, key);
    b < |chains| && exists i :: 0 <= i < |chains[b]| && chains[b][i].key == key
  }

  /** The chains hold exactly the map. */
  ghost predicate Right<V>(l: Links<V>, chains: seq<Chain<V>>, h: HashFunc, m: map<string, V>) {
    && |chains| == |l.first|
    && (forall b | 0 <= b < |chains| :: ChainOk(l, chains[b], b, h, m))
    && forall key | key in m :: Found(chains, h, key)
  }

  // -------------------------------------------------------------- a node more, a node less

  /** A new node in front of bucket b. */
  ghost predicate Pushed<V>(l: Links<V>, k: Links<V>, b: nat, node: Node<V>)
    requires b < |l.first|
  {
    && node !in l.prev && node !in l.next
    && k.first == l.first[b := node]
    && node in k.prev && k.prev[node] == null && node in k.next && k.next[node] == l.first[b]
    && (forall n | n in l.next :: n in k.next && k.next[n] == l.next[n])
    && forall n | n in l.prev :: n in k.prev && k.prev[n] == if n == l.first[b] then node else l.prev[n]
  }

  lemma PushedElsewhere<V>(l: Links<V>, k: Links<V>, b: nat, node: Node<V>, c: Chain<V>, d: nat,
                           h: HashFunc, m: map<string, V>)
    requires b < |l.first| && Pushed(l, k, b, node) && d < |l.first| && d != b && ChainOk(l, c, d, h, m)
    requires l.first[b] != null ==> h(|l.first|, l.first[b].key) == b
    requires node.key !in m
    ensures ChainOk(k, c, d, h, m[node.key := node.value])
  {
    var m1 := m[node.key := node.value];
    forall i | 0 <= i < |c| ensures NodeOk(k, c, d, i, h, m1) { assert NodeOk(l, c, d, i, h, m); }
  }

  lemma PushedHere<V>(l: Links<V>, k: Links<V>, b: nat, node: Node<V>, c: Chain<V>, h: HashFunc, m: map<string, V>)
    requires b < |l.first| && Pushed(l, k, b, node) && ChainOk(l, c, b, h, m)
    requires node.key !in m && h(|l.first|, node.key) == b
    ensures ChainOk(k, [node] + c, b, h, m[node.key := node.value])
  {
    var (d, m1) := ([node] + c, m[node.key := node.value]);
    forall i | 0 <= i < |d| ensures NodeOk(k, d, b, i, h, m1) {
      if i > 0 {
        assert NodeOk(l, c, b, i - 1, h, m);
        if i > 1 { assert NodeOk(l, c, b, 0, h, m) && c[0].key != c[i - 1].key; }
      }
    }
    forall j | 0 <= j < |c| ensures c[j].key != node.key { assert NodeOk(l, c, b, j, h, m); }
  }

  lemma PushedRight<V>(l: Links<V>, k: Links<V>, b: nat, node: Node<V>, chains: seq<Chain<V>>, h: HashFunc,
                       m: map<string, V>)
    requires Right(l, chains, h, m) && b < |l.first| && Pushed(l, k, b, node)
    requires node.key !in m && h(|l.first|, node.key) == b
    ensures Right(k, chains[b := [node] + chains[b]], h, m[node.key := node.value])
  {
    var after := chains[b := [node] + chains[b]];
    assert ChainOk(l, chains[b], b, h, m);
    if |chains[b]| > 0 { assert NodeOk(l, chains[b], b, 0, h, m); }
    forall d | 0 <= d < |chains| ensures ChainOk(k, after[d], d, h, m[node.key := node.value]) {
      assert ChainOk(l, chains[d], d, h, m);
      if d == b {
        PushedHere(l, k, b, node, chains[b], h, m);
      } else {
        PushedElsewhere(l, k, b, node, chains[d], d, h, m);
      }
    }
    forall key | key in m || key == node.key ensures Found(after, h, key) {
      if key == node.key {
        assert after[b][0].key == key;
      } else {
        assert Found(chains, h, key);
        var d := h(|chains|, key);
        var i :| 0 <= i < |chains[d]| && chains[d][i].key == key;
        assert after[d][if d == b then i + 1 else i].key == key;
      }
    }
  }

  /** A node out of the chain of bucket b. */
  ghost predicate Unlinked<V>(l: Links<V>, k: Links<V>, b: nat, node: Node<V>)
    requires b < |l.first| && node in l.prev && node in l.next
  {
    && k.first == (if l.prev[node] == null then l.first[b := l.next[node]] else l.first)
    && (forall n | n in l.next && n != node ::
          n in k.next && k.next[n] == if n == l.prev[node] then l.next[node] else l.next[n])
    && forall n | n in l.prev && n != node ::
         n in k.prev && k.prev[n] == if n == l.next[node] then l.prev[node] else l.prev[n]
  }

  lemma UnlinkedElsewhere<V>(l: Links<V>, k: Links<V>, b: nat, i: nat, chains: seq<Chain<V>>, d: nat, h: HashFunc,
                             m: map<string, V>)
    requires Right(l, chains, h, m) && b < |l.first| && i < |chains[b]| && d < |l.first| && d != b
    requires ChainOk(l, chains[b], b, h, m) && NodeOk(l, chains[b], b, i, h, m)
    requires Unlinked(l, k, b, chains[b][i])
    ensures ChainOk(k, chains[d], d, h, m - {chains[b][i].key})
  {
    var (c, e) := (chains[b], chains[d]);
    assert ChainOk(l, e, d, h, m);
    if i > 0 { assert NodeOk(l, c, b, i - 1, h, m); }
    if i + 1 < |c| { assert NodeOk(l, c, b, i + 1, h, m); }
    forall j | 0 <= j < |e| ensures NodeOk(k, e, d, j, h, m - {c[i].key}) { assert NodeOk(l, e, d, j, h, m); }
  }

  /** Places shift down by one past a node that was taken out. */
  lemma AtDropped<V>(c: Chain<V>, i: nat, j: int)
    requires i < |c|
    ensures At(c[..i] + c[i + 1..], j) == At(c, if j < i then j else j + 1)
  {
  }

  lemma UnlinkedNode<V>(l: Links<V>, k: Links<V>, b: nat, i: nat, c: Chain<V>, j: nat, h: HashFunc, m: map<string, V>)
    requires b < |l.first| && i < |c| && ChainOk(l, c, b, h, m) && NodeOk(l, c, b, i, h, m)
    requires Unlinked(l, k, b, c[i]) && j < |c| - 1
    ensures NodeOk(k, c[..i] + c[i + 1..], b, j, h, m - {c[i].key})
  {
    var (d, j0) := (c[..i] + c[i + 1..], if j < i then j else j + 1);
    assert d[j] == c[j0];
    assert NodeOk(l, c, b, j0, h, m) && c[j0].key != c[i].key;
    if i > 0 { assert NodeOk(l, c, b, i - 1, h, m) && At(c, i - 1) == c[i - 1]; }
    if i + 1 < |c| { assert NodeOk(l, c, b, i + 1, h, m) && At(c, i + 1) == c[i + 1]; }
    assert c[j0] == At(c, i - 1) <==> j0 == i - 1;
    assert c[j0] == At(c, i + 1) <==> j0 == i + 1;
    hide At;
    AtDropped(c, i, j + 1);
    AtDropped(c, i, j - 1);
  }

  lemma UnlinkedHere<V>(l: Links<V>, k: Links<V>, b: nat, i: nat, c: Chain<V>, h: HashFunc, m: map<string, V>)
    requires b < |l.first| && i < |c| && ChainOk(l, c, b, h, m) && NodeOk(l, c, b, i, h, m)
    requires Unlinked(l, k, b, c[i])
    ensures ChainOk(k, c[..i] + c[i + 1..], b, h, m - {c[i].key})
  {
    var d := c[..i] + c[i + 1..];
    AtDropped(c, i, 0);
    forall j | 0 <= j < |d| ensures NodeOk(k, d, b, j, h, m - {c[i].key}) { UnlinkedNode(l, k, b, i, c, j, h, m); }
    hide NodeOk;
  }

  lemma UnlinkedRight<V>(l: Links<V>, k: Links<V>, b: nat, i: nat, chains: seq<Chain<V>>, h: HashFunc,
                         m: map<string, V>)
    requires Right(l, chains, h, m) && b < |l.first| && i < |chains[b]|
    requires ChainOk(l, chains[b], b, h, m) && NodeOk(l, chains[b], b, i, h, m)
    requires Unlinked(l, k, b, chains[b][i])
    ensures Right(k, chains[b := chains[b][..i] + chains[b][i + 1..]], h, m - {chains[b][i].key})
  {
    var (c, out) := (chains[b], chains[b][i].key);
    var after := chains[b := c[..i] + c[i + 1..]];
    forall d | 0 <= d < |chains| ensures ChainOk(k, after[d], d, h, m - {out}) {
      if d == b { UnlinkedHere(l, k, b, i, c, h, m); } else { UnlinkedElsewhere(l, k, b, i, chains, d, h, m); }
    }
    forall key | key in m && key != out ensures Found(after, h, key) {
      assert Found(chains, h, key);
      var d := h(|chains|, key);
      var j :| 0 <= j < |chains[d]| && chains[d][j].key == key;
      assert after[d][if d == b && j > i then j - 1 else j].key == key;
    }
  }

  // -------------------------------------------------------------------------- keys in memory

  const NUL: char := '\0'

  /** The first bytes of a key with its terminator, and of what lies behind it: what hash_add_entry copies. */
  function Copied(key: string, behind: string, size: nat): (r: string)
    requires |key| + 1 + |behind| >= size
    ensures |r| == size
  {
    (key + [NUL] + behind)[..size]
  }

  datatype Comparison = Same | Differs | ReadsPast

  /** strcmp of a key, from its i-th byte on, with a buffer that holds a copy. */
  function Compare(key: string, buffer: string, i: nat): Comparison
    requires i <= |key|
    decreases |key| - i
  {
    if i >= |buffer| then ReadsPast
    else if (if i < |key| then key[i] else NUL) != buffer[i] then Differs
    else if i == |key| then Same
    else Compare(key, buffer, i + 1)
  }

  predicate Terminated(key: string) { NUL !in key }

  /** A copied key can be compared with every key without reading past the copy if and only if it fits the key size
      with its terminator. */
  lemma CopyFits(key: string, behind: string, size: nat)
    requires Terminated(key) && |key| + 1 + |behind| >= size
    ensures (forall k: string | Terminated(k) :: Compare(k, Copied(key, behind, size), 0) != ReadsPast)
            <==> |key| < size
  {
    if |key| < size {
      forall k: string | Terminated(k) ensures Compare(k, Copied(key, behind, size), 0) != ReadsPast {
        CompareCopy(k, key, behind, size, 0);
      }
    } else {
      RunsPast(key, behind, size, 0);
    }
  }

  /** And then the comparison finds exactly the equal key. */
  lemma {:induction false} CompareCopy(k: string, key: string, behind: string, size: nat, i: nat)
    requires Terminated(k) && Terminated(key) && |key| < size <= |key| + 1 + |behind|
    requires i <= |k| && i <= |key| && k[..i] == key[..i]
    ensures Compare(k, Copied(key, behind, size), i) == if k == key then Same else Differs
    decreases |k| - i
  {
    var c := Copied(key, behind, size);
    assert forall j | 0 <= j < |key| :: c[j] == key[j];
    assert c[|key|] == NUL;
    if i < |k| && i < |key| && k[i] == key[i] {
      assert k[..i + 1] == key[..i + 1];
      CompareCopy(k, key, behind, size, i + 1);
    } else if i == |k| == |key| {
      assert k == k[..i] == key[..i] == key;
    } else if i < |k| {
      assert k[i] in k;
    } else {
      assert i < |key| && key[i] in key;
    }
  }

  lemma {:induction false} RunsPast(key: string, behind: string, size: nat, i: nat)
    requires Terminated(key) && i <= size <= |key|
    ensures Compare(key, Copied(key, behind, size), i) == ReadsPast
    decreases size - i
  {
    if i < size { RunsPast(key, behind, size, i + 1); }
  }

  // -------------------------------------------------------------------------- the table

  class Table<V> {
    const hashFunc: HashFunc
    const keySize: nat
    const buckets: array<Node?<V>>
    ghost var chains: seq<Chain<V>>
    ghost var repr: set<Node<V>>
    ghost var contents: map<string, V>

    ghost function Pointers(): Links<V>
      reads this, repr, buckets
    {
      Links(map n | n in repr :: n.prev, map n | n in repr :: n.next, buckets[..])
    }

    ghost predicate Valid()
      reads this, repr, buckets
    {
      Right(Pointers(), chains, hashFunc, contents)
    }

    /** hash_alloc */
    constructor (n: nat, keySize: nat, hashFunc: HashFunc)
      ensures Valid() && contents == map[] && repr == {} && fresh(buckets)
      ensures this.hashFunc == hashFunc && this.keySize == keySize && buckets.Length == n
    {
      this.hashFunc, this.keySize := hashFunc, keySize;
      buckets := new Node?<V>[n](_ => null);
      chains, repr, contents := seq(n, _ => []), {}, map[];
    }

    ghost predicate Spot(node: Node<V>, b: nat, i: nat)
      reads this
    {
      b < |chains| && i < |chains[b]| && chains[b][i] == node
    }

    /** The facts about one node of the table. */
    lemma NodeAt(b: nat, i: nat)
      requires Valid() && b < |chains| && i < |chains[b]|
      ensures ChainOk(Pointers(), chains[b], b, hashFunc, contents)
              && NodeOk(Pointers(), chains[b], b, i, hashFunc, contents)
      ensures var n := chains[b][i];
              n in repr && n.prev == At(chains[b], i - 1) && n.next == At(chains[b], i + 1)
              && n.key in contents && contents[n.key] == n.value
    {
      assert ChainOk(Pointers(), chains[b], b, hashFunc, contents);
      assert NodeOk(Pointers(), chains[b], b, i, hashFunc, contents);
    }

    /** hash_get_node_by_key; i is its place in its chain. */
    method GetNode(key: string) returns (node: Node?<V>, ghost i: nat)
      requires Valid()
      ensures node == null <==> key !in contents
      ensures node != null ==> node.key == key && Spot(node, hashFunc(buckets.Length, key), i)
    {
      var b := hashFunc(buckets.Length, key);
      i := 0;
      if b >= buckets.Length {
        assert key in contents ==> Found(chains, hashFunc, key);
        return null, 0;
      }
      assert ChainOk(Pointers(), chains[b], b, hashFunc, contents);
      node := buckets[b];
      while node != null && node.key != key
        invariant 0 <= i <= |chains[b]| && node == At(chains[b], i)
        invariant forall j | 0 <= j < i :: chains[b][j].key != key
        decreases |chains[b]| - i
      {
        NodeAt(b, i);
        node := node.next;
        i := i + 1;
      }
      if node != null { NodeAt(b, i); } else { assert key in contents ==> Found(chains, hashFunc, key); }
    }

    /** hash_lookup_entry */
    method Lookup(key: string) returns (r: Option<V>)
      requires Valid()
      ensures r == if key in contents then Some(contents[key]) else None
    {
      var node;
      ghost var i;
      node, i := GetNode(key);
      if node == null { return None; }
      NodeAt(hashFunc(buckets.Length, key), i);
      r := Some(node.value);
    }

    /** Every key fits the key size, so that searches compare it as it is (CopyFits, CompareCopy). */
    ghost predicate AllFit()
      reads this
    {
      forall key | key in contents :: |key| < keySize
    }

    /** hash_add_entry; mem tells whether the allocations succeed. */
    method Add(key: string, value: V, mem: bool) returns (ok: bool)
      requires Valid()
      modifies this, repr, buckets
      ensures Valid() && fresh(repr - old(repr))
      ensures ok <==> key !in old(contents) && hashFunc(buckets.Length, key) < buckets.Length && mem
      ensures AllFit() <==> old(AllFit()) && (ok ==> |key| < keySize)
      ensures contents == if ok then old(contents)[key := value] else old(contents)
    {
      hide Right, ChainOk, NodeOk, Found, Pushed, At;
      var present := Lookup(key);
      if present.Some? { return false; }
      var b := hashFunc(buckets.Length, key);
      if b >= buckets.Length || !mem { return false; }
      FirstInRepr(b);
      ghost var was, c0, m0 := Pointers(), chains, contents;
      var node := new Node(key, value);
      chains := chains[b := [node] + chains[b]];
      contents := contents[key := value];
      LinkFirst(node, b);
      PushedRight(was, Pointers(), b, node, c0, hashFunc, m0);
      ok := true;
    }

    /** A new node becomes the first of its bucket. */
    method LinkFirst(node: Node<V>, b: nat)
      requires b < buckets.Length && node !in repr && node.prev == null == node.next
      requires buckets[b] != null ==> buckets[b] in repr
      modifies node, this`repr, repr, buckets
      ensures repr == old(repr) + {node} && Pushed(old(Pointers()), Pointers(), b, node)
    {
      if buckets[b] == null {
        buckets[b] := node;
      } else {
        node.next := buckets[b];
        buckets[b].prev := node;
        buckets[b] := node;
      }
      repr := repr + {node};
    }

    lemma FirstInRepr(b: nat)
      requires Valid() && b < buckets.Length
      ensures |chains| == buckets.Length && (buckets[b] != null ==> buckets[b] in repr)
    {
      if |chains[b]| > 0 { NodeAt(b, 0); } else { assert ChainOk(Pointers(), chains[b], b, hashFunc, contents); }
    }

    /** hash_free_entry */
    method Free(key: string) returns (ok: bool)
      requires Valid()
      modifies this, repr, buckets
      ensures Valid() && repr <= old(repr)
      ensures ok <==> key in old(contents)
      ensures contents == old(contents) - {key}
    {
      hide Right, ChainOk, NodeOk, Found, Unlinked, At, KeysDiffer;
      var node;
      ghost var i;
      node, i := GetNode(key);
      if node == null { return false; }
      var b := hashFunc(buckets.Length, key);
      Neighbours(b, i);
      ghost var was, c0, m0 := Pointers(), chains, contents;
      chains := chains[b := chains[b][..i] + chains[b][i + 1..]];
      contents := contents - {key};
      Unlink(node, b);
      UnlinkedRight(was, Pointers(), b, i, c0, hashFunc, m0);
      ok := true;
    }

    /** A node leaves its chain. */
    method Unlink(node: Node<V>, b: nat)
      requires b < buckets.Length && node in repr && node.prev != node && node.next != node
      requires node.prev != null ==> node.prev in repr && node.prev != node.next
      requires node.next != null ==> node.next in repr
      modifies this`repr, repr, buckets
      ensures repr == old(repr) - {node} && Unlinked(old(Pointers()), Pointers(), b, node)
    {
      if node.prev != null {
        node.prev.next := node.next;
      } else {
        buckets[b] := node.next;
      }
      if node.next != null {
        node.next.prev := node.prev;
      }
      repr := repr - {node};
    }

    /** A node, its neighbours, and that they are three. */
    lemma Neighbours(b: nat, i: nat)
      requires Valid() && b < |chains| && i < |chains[b]|
      ensures |chains| == buckets.Length && ChainOk(Pointers(), chains[b], b, hashFunc, contents)
      ensures NodeOk(Pointers(), chains[b], b, i, hashFunc, contents)
      ensures var n := chains[b][i];
              && n in repr && n.prev != n && n.next != n
              && (n.prev != null ==> n.prev in repr && n.prev != n.next) && (n.next != null ==> n.next in repr)
    {
      NodeAt(b, i);
      if i > 0 { NodeAt(b, i - 1); }
      if i + 1 < |chains[b]| { NodeAt(b, i + 1); }
    }
  }
}
