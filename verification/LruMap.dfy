/**
  The LRU map: a linked list in recency order and an index from key to list node.  Each
  operation is proved against a function on the recency sequence alone.
 */
module LruMap {
  import opened Options

  // ----- the recency sequence -----

  /** Where a key stands, or -1. */
  function Position<K(==), V>(c: seq<(K, V)>, key: K): (i: int)
    ensures -1 <= i < |c| && (i >= 0 ==> c[i].0 == key)
    ensures i < 0 ==> forall j :: 0 <= j < |c| ==> c[j].0 != key
    ensures i >= 0 ==> forall j :: 0 <= j < i ==> c[j].0 != key
  {
    if c == [] then -1
    else if c[0].0 == key then 0
    else var i := Position(c[1..], key); if i < 0 then -1 else i + 1
  }

  function Without<T>(c: seq<T>, i: nat): seq<T>
    requires i < |c|
  {
    c[..i] + c[i + 1..]
  }

  function ToFront<T>(c: seq<T>, i: nat): seq<T>
    requires i < |c|
  {
    [c[i]] + Without(c, i)
  }

  function Reversed<T>(c: seq<T>): seq<T> {
    if c == [] then [] else Reversed(c[1..]) + [c[0]]
  }

  /** What is left when the back is evicted down to n entries. */
  function Kept<T>(c: seq<T>, n: nat): seq<T> { if |c| <= n then c else c[..n] }

  /** What the eviction callback sees, in order. */
  function Evictions<T>(c: seq<T>, n: nat): seq<T> { if |c| <= n then [] else Reversed(c[n..]) }

  lemma EvictOne<T>(c: seq<T>, n: nat)
    requires n < |c|
    ensures Evictions(c, n) == [c[|c| - 1]] + Evictions(c[..|c| - 1], n)
  {
    ReversedLast(c[n..]);
    assert c[n..][..|c| - n - 1] == c[..|c| - 1][n..];
  }

  lemma NothingToEvict<T>(c: seq<T>, n: nat)
    requires |c| <= n
    ensures Evictions(c, n) == []
  {}

  lemma {:induction false} ReversedLast<T>(c: seq<T>)
    requires c != []
    ensures Reversed(c) == [c[|c| - 1]] + Reversed(c[..|c| - 1])
  {
    if |c| > 1 {
      ReversedLast(c[1..]);
      assert c[1..][..|c| - 2] == c[..|c| - 1][1..];
    }
  }

  /** try_get_or_create(): the recency sequence after it. */
  function Gotten<K(==), V>(c: seq<(K, V)>, capacity: nat, key: K, made: V, front: bool): seq<(K, V)> {
    var i := Position(c, key);
    if i >= 0 then (if front then ToFront(c, i) else c)
    else if capacity < 1 then c
    else [(key, made)] + Kept(c, capacity - 1)
  }

  /** try_set(): the recency sequence after it. */
  function Put<K(==), V>(c: seq<(K, V)>, capacity: nat, key: K, value: V, front: bool): seq<(K, V)> {
    var i := Position(c, key);
    if i >= 0 then (if front then [(key, value)] + Without(c, i) else c[i := (key, value)])
    else if capacity < 1 then c
    else [(key, value)] + Kept(c, capacity - 1)
  }

  // ----- what the operations do, key by key -----

  predicate Distinct<K(==), V>(c: seq<(K, V)>) {
    forall i, j :: 0 <= i < j < |c| ==> c[i].0 != c[j].0
  }

  /** The value held for a key. */
  function Lookup<K(==), V>(c: seq<(K, V)>, key: K): Option<V> {
    var i := Position(c, key);
    if i < 0 then None else Some(c[i].1)
  }

  predicate SameOrder<K(==), V>(c: seq<(K, V)>, d: seq<(K, V)>) {
    |c| == |d| && forall i :: 0 <= i < |c| ==> c[i].0 == d[i].0
  }

  lemma LookupIs<K, V>(c: seq<(K, V)>, i: nat)
    requires Distinct(c) && i < |c|
    ensures Lookup(c, c[i].0) == Some(c[i].1)
  {
    hide Position;
  }

  lemma WithoutLookup<K, V>(c: seq<(K, V)>, i: nat)
    requires Distinct(c) && i < |c|
    ensures Distinct(Without(c, i)) && Lookup(Without(c, i), c[i].0) == None
    ensures forall k :: k != c[i].0 ==> Lookup(Without(c, i), k) == Lookup(c, k)
  {
    hide Position;
    var d := Without(c, i);
    forall k | k != c[i].0 ensures Lookup(d, k) == Lookup(c, k) {
      var p := Position(c, k);
      if p >= 0 {
        var q := if p < i then p else p - 1;
        assert d[q] == c[p];
        LookupIs(d, q);
      }
    }
  }

  lemma FrontLookup<K, V>(c: seq<(K, V)>, key: K, value: V)
    requires Distinct(c) && Position(c, key) < 0
    ensures Distinct([(key, value)] + c) && Lookup([(key, value)] + c, key) == Some(value)
    ensures forall k :: k != key ==> Lookup([(key, value)] + c, k) == Lookup(c, k)
  {
    hide Position;
    var d := [(key, value)] + c;
    LookupIs(d, 0);
    forall k | k != key ensures Lookup(d, k) == Lookup(c, k) {
      var p := Position(c, k);
      if p >= 0 {
        assert d[p + 1] == c[p];
        LookupIs(d, p + 1);
      }
    }
  }

  lemma KeptLookup<K, V>(c: seq<(K, V)>, n: nat)
    requires Distinct(c)
    ensures Distinct(Kept(c, n))
    ensures forall k :: Lookup(Kept(c, n), k) == if 0 <= Position(c, k) < n then Lookup(c, k) else None
  {
    hide Position;
    var d := Kept(c, n);
    forall k ensures Lookup(d, k) == if 0 <= Position(c, k) < n then Lookup(c, k) else None {
      var p := Position(c, k);
      if 0 <= p < n {
        assert d[p] == c[p];
        LookupIs(d, p);
      }
    }
  }

  lemma ChangedLookup<K, V>(c: seq<(K, V)>, i: nat, value: V)
    requires Distinct(c) && i < |c|
    ensures var d := c[i := (c[i].0, value)];
      && Distinct(d) && SameOrder(d, c) && Lookup(d, c[i].0) == Some(value)
      && forall k :: k != c[i].0 ==> Lookup(d, k) == Lookup(c, k)
  {
    hide Position;
    var d := c[i := (c[i].0, value)];
    LookupIs(d, i);
    forall k | k != c[i].0 ensures Lookup(d, k) == Lookup(c, k) {
      var p := Position(c, k);
      if p >= 0 {
        LookupIs(d, p);
      }
    }
  }

  /**
    A set: the key has the new value, every other key that stays has its own, and only a
    move or an insertion reorders.
   */
  ghost predicate Stored<K(!new), V>(c: seq<(K, V)>, d: seq<(K, V)>, capacity: nat, key: K, value: V, front: bool) {
    && (Lookup(c, key).Some? || capacity >= 1 ==> Lookup(d, key) == Some(value))
    && (forall k :: k != key ==> Lookup(d, k) == Lookup(c, k) || (Lookup(d, k) == None && Lookup(c, key) == None))
    && (Lookup(c, key).Some? && !front ==> SameOrder(d, c))
    && (Lookup(c, key) == None && capacity < 1 ==> d == c)
  }

  lemma PutStores<K(!new), V>(c: seq<(K, V)>, capacity: nat, key: K, value: V, front: bool)
    requires Distinct(c)
    ensures Distinct(Put(c, capacity, key, value, front))
    ensures Stored(c, Put(c, capacity, key, value, front), capacity, key, value, front)
  {
    hide Position, Kept, Without;
    var i := Position(c, key);
    if i >= 0 {
      WithoutLookup(c, i);
      AbsentWithout(c, i);
      FrontLookup(Without(c, i), key, value);
      ChangedLookup(c, i, value);
    } else if capacity >= 1 {
      KeptLookup(c, capacity - 1);
      KeptLacks(c, capacity - 1, key);
      FrontLookup(Kept(c, capacity - 1), key, value);
    }
  }

  lemma AbsentWithout<K, V>(c: seq<(K, V)>, i: nat)
    requires Distinct(c) && i < |c|
    ensures Position(Without(c, i), c[i].0) < 0
  {
    WithoutLookup(c, i);
  }

  /**
    A get: a present key keeps its value, an absent one has what the factory made, and every
    other key that stays has its own.
   */
  ghost predicate Fetched<K(!new), V>(c: seq<(K, V)>, d: seq<(K, V)>, capacity: nat, key: K, made: V, front: bool) {
    && (Lookup(c, key).Some? ==> forall k :: Lookup(d, k) == Lookup(c, k))
    && (Lookup(c, key) == None && capacity >= 1 ==> Lookup(d, key) == Some(made))
    && (forall k :: k != key ==> Lookup(d, k) == Lookup(c, k) || (Lookup(d, k) == None && Lookup(c, key) == None))
    && ((Lookup(c, key).Some? && !front) || (Lookup(c, key) == None && capacity < 1) ==> d == c)
  }

  lemma GottenFetches<K(!new), V>(c: seq<(K, V)>, capacity: nat, key: K, made: V, front: bool)
    requires Distinct(c)
    ensures Distinct(Gotten(c, capacity, key, made, front))
    ensures Fetched(c, Gotten(c, capacity, key, made, front), capacity, key, made, front)
  {
    hide Position, Kept, Without;
    var i := Position(c, key);
    if i >= 0 {
      WithoutLookup(c, i);
      AbsentWithout(c, i);
      FrontLookup(Without(c, i), key, c[i].1);
      assert c[i] == (key, c[i].1);
    } else if capacity >= 1 {
      KeptLookup(c, capacity - 1);
      KeptLacks(c, capacity - 1, key);
      FrontLookup(Kept(c, capacity - 1), key, made);
    }
  }

  /** What an insertion of an absent key evicts. */
  function Displaced<K(==), V>(c: seq<(K, V)>, capacity: nat, key: K): seq<(K, V)> {
    if Position(c, key) >= 0 || capacity < 1 then [] else Evictions(c, capacity - 1)
  }

  // ----- the list and its index -----

  /** A list node; `id` is its address. */
  datatype Node<K, V> = Node(id: nat, key: K, value: V)

  function Pairs<K, V>(list: seq<Node<K, V>>): (c: seq<(K, V)>)
    ensures |c| == |list| && forall i :: 0 <= i < |list| ==> c[i] == (list[i].key, list[i].value)
  {
    seq(|list|, i requires 0 <= i < |list| => (list[i].key, list[i].value))
  }

  /** The place of the node at an address. */
  function Locate<K, V>(list: seq<Node<K, V>>, id: nat): (i: nat)
    requires exists j :: 0 <= j < |list| && list[j].id == id
    ensures i < |list| && list[i].id == id
  {
    if list[0].id == id then 0
    else
      assert exists j :: 0 <= j < |list[1..]| && list[1..][j].id == id by {
        var j :| 0 <= j < |list| && list[j].id == id;
        assert list[1..][j - 1].id == id;
      }
      Locate(list[1..], id) + 1
  }

  predicate Apart<K(==), V>(list: seq<Node<K, V>>) {
    forall i, j :: 0 <= i < j < |list| ==> list[i].key != list[j].key && list[i].id != list[j].id
  }

  predicate Points<K(==), V>(list: seq<Node<K, V>>, index: map<K, nat>, nextId: nat) {
    forall i :: 0 <= i < |list| ==> list[i].id < nextId && list[i].key in index && index[list[i].key] == list[i].id
  }

  predicate Listed<K(==), V>(list: seq<Node<K, V>>, key: K) {
    exists i :: 0 <= i < |list| && list[i].key == key
  }

  /** The list and the index agree: distinct keys, each indexed to its own node. */
  ghost predicate Indexed<K, V>(list: seq<Node<K, V>>, index: map<K, nat>, nextId: nat) {
    Apart(list) && Points(list, index, nextId) && forall k :: k in index ==> Listed(list, k)
  }

  /** The index answers for the list. */
  lemma IndexFinds<K, V>(list: seq<Node<K, V>>, index: map<K, nat>, nextId: nat, key: K)
    requires Indexed(list, index, nextId)
    ensures key in index <==> Position(Pairs(list), key) >= 0
    ensures key in index ==>
      && (exists j :: 0 <= j < |list| && list[j].id == index[key])
      && Locate(list, index[key]) == Position(Pairs(list), key)
  {
    hide Position, Locate;
    if key in index {
      assert Listed(list, key);
      var i :| 0 <= i < |list| && list[i].key == key;
      assert Pairs(list)[i].0 == key && list[i].id == index[key];
    }
  }

  lemma MovedIndexed<K, V>(list: seq<Node<K, V>>, index: map<K, nat>, nextId: nat, i: nat)
    requires Indexed(list, index, nextId) && i < |list|
    ensures Indexed(ToFront(list, i), index, nextId)
  {
    hide Indexed, Apart, Points, Listed;
    WithoutIndexed(list, index, nextId, i);
    assert list[i] == list[i].(value := list[i].value);
    FrontIndexed(Without(list, i), index - {list[i].key}, index, nextId, list[i]);
  }

  /** A node whose key and address the list lacks goes to the front. */
  lemma FrontIndexed<K, V>(list: seq<Node<K, V>>, index: map<K, nat>, index': map<K, nat>, nextId: nat, n: Node<K, V>)
    requires Indexed(list, index, nextId) && n.key !in index && n.id < nextId && index' == index[n.key := n.id]
    requires forall j :: 0 <= j < |list| ==> list[j].id != n.id
    ensures Indexed([n] + list, index', nextId)
  {
    var added := [n] + list;
    assert Apart(added) by { hide Listed; }
    assert Points(added, index', nextId) by { hide Listed, Apart; }
    forall k | k in index' ensures Listed(added, k) {
      hide Apart, Points;
      if k == n.key {
        assert added[0].key == k;
      } else {
        assert Listed(list, k);
        var j :| 0 <= j < |list| && list[j].key == k;
        assert added[j + 1].key == k;
      }
    }
  }

  lemma WithoutApart<K, V>(list: seq<Node<K, V>>, i: nat)
    requires Apart(list) && i < |list|
    ensures Apart(Without(list, i))
    ensures forall j :: 0 <= j < |Without(list, i)| ==>
              Without(list, i)[j].id != list[i].id && Without(list, i)[j].key != list[i].key
  {}

  lemma WithoutPoints<K, V>(list: seq<Node<K, V>>, index: map<K, nat>, nextId: nat, i: nat)
    requires Apart(list) && Points(list, index, nextId) && i < |list|
    ensures Points(Without(list, i), index - {list[i].key}, nextId)
    ensures list[i].key in index && index[list[i].key] == list[i].id && list[i].id < nextId
  {
    hide Apart;
    WithoutApart(list, i);
  }

  lemma WithoutIndexed<K, V>(list: seq<Node<K, V>>, index: map<K, nat>, nextId: nat, i: nat)
    requires Indexed(list, index, nextId) && i < |list|
    ensures Indexed(Without(list, i), index - {list[i].key}, nextId) && list[i].key in index
    ensures index[list[i].key] == list[i].id
    ensures list[i].id < nextId && forall j :: 0 <= j < |Without(list, i)| ==> Without(list, i)[j].id != list[i].id
    ensures index == (index - {list[i].key})[list[i].key := list[i].id]
  {
    hide Apart, Points;
    var left := Without(list, i);
    var fewer := index - {list[i].key};
    WithoutApart(list, i);
    WithoutPoints(list, index, nextId, i);
    forall k | k in fewer ensures Listed(left, k) {
      assert Listed(list, k);
      var j :| 0 <= j < |list| && list[j].key == k;
      assert left[if j < i then j else j - 1].key == k;
    }
  }

  lemma KeysDistinct<K, V>(list: seq<Node<K, V>>, index: map<K, nat>, nextId: nat)
    requires Indexed(list, index, nextId)
    ensures Distinct(Pairs(list))
  {
    hide Points, Listed;
  }

  lemma PositionAt<K, V>(list: seq<Node<K, V>>, index: map<K, nat>, nextId: nat, i: nat)
    requires Indexed(list, index, nextId) && i < |list|
    ensures list[i].key in index && Position(Pairs(list), list[i].key) == i
  {
    hide Position, Listed;
    assert Pairs(list)[i].0 == list[i].key;
  }

  lemma PairsOf<K, V>(list: seq<Node<K, V>>, i: nat)
    requires i < |list|
    ensures Pairs(ToFront(list, i)) == ToFront(Pairs(list), i) && Pairs(Without(list, i)) == Without(Pairs(list), i)
  {}

  lemma LaterIds<K, V>(list: seq<Node<K, V>>, index: map<K, nat>, nextId: nat)
    requires Indexed(list, index, nextId)
    ensures Indexed(list, index, nextId + 1) && forall j :: 0 <= j < |list| ==> list[j].id != nextId
  {
    hide Apart, Listed;
  }

  lemma AddedIndexed<K, V>(list: seq<Node<K, V>>, index: map<K, nat>, nextId: nat, key: K, value: V)
    requires Indexed(list, index, nextId) && key !in index
    ensures Indexed([Node(nextId, key, value)] + list, index[key := nextId], nextId + 1)
    ensures Pairs([Node(nextId, key, value)] + list) == [(key, value)] + Pairs(list)
  {
    hide Indexed;
    LaterIds(list, index, nextId);
    FrontIndexed(list, index, index[key := nextId], nextId + 1, Node(nextId, key, value));
  }

  lemma ChangedIndexed<K, V>(list: seq<Node<K, V>>, index: map<K, nat>, nextId: nat, i: nat, value: V)
    requires Indexed(list, index, nextId) && i < |list|
    ensures var changed := list[i := list[i].(value := value)];
      Indexed(changed, index, nextId) && Pairs(changed) == Pairs(list)[i := (list[i].key, value)]
  {
    var changed := list[i := list[i].(value := value)];
    assert forall j :: 0 <= j < |list| ==> changed[j].key == list[j].key && changed[j].id == list[j].id;
    assert Apart(changed) by { hide Listed, Points; }
    assert Points(changed, index, nextId) by { hide Listed, Apart; }
    forall k | k in index ensures Listed(changed, k) {
      hide Apart, Points;
      assert Listed(list, k);
      var j :| 0 <= j < |list| && list[j].key == k;
      assert changed[j].key == k;
    }
  }

  /** Evicting the back entries down to n, one at a time. */
  lemma EvictedPrefix<K, V>(was: seq<Node<K, V>>, list: seq<Node<K, V>>, n: nat, evicted: seq<(K, V)>)
    requires |list| <= |was| && list == was[..|list|] && n < |list|
    requires Evictions(Pairs(was), n) == evicted + Evictions(Pairs(list), n)
    ensures var back := list[|list| - 1];
      Evictions(Pairs(was), n) == evicted + [(back.key, back.value)] + Evictions(Pairs(list[..|list| - 1]), n)
  {
    EvictOne(Pairs(list), n);
    assert Pairs(list)[..|list| - 1] == Pairs(list[..|list| - 1]);
  }

  class LruMap<K(==, !new), V> {
    var capacity: nat
    var list: seq<Node<K, V>>
    var listSize: nat
    var index: map<K, nat>
    var hits: nat
    var misses: nat
    var nextId: nat            // stands for the allocator: the next node's address

    ghost predicate Linked()
      reads this
    {
      listSize == |list| && Indexed(list, index, nextId)
    }

    ghost predicate Valid()
      reads this
    {
      Linked() && listSize <= capacity
    }

    ghost function Contents(): seq<(K, V)>
      reads this
    {
      Pairs(list)
    }

    constructor (capacity: nat)
      ensures Valid() && Contents() == [] && this.capacity == capacity && hits == 0 && misses == 0
    {
      this.capacity := capacity;
      list, listSize, index, hits, misses, nextId := [], 0, map[], 0, 0, 0;
    }

    method Evict() returns (victim: (K, V))
      requires Linked() && listSize > 0
      modifies this`list, this`listSize, this`index
      ensures Linked() && list == old(list)[..|old(list)| - 1]
      ensures victim == (old(list)[|old(list)| - 1].key, old(list)[|old(list)| - 1].value)
    {
      var back := list[|list| - 1];
      hide Indexed;
      WithoutIndexed(list, index, nextId, |list| - 1);
      assert Without(list, |list| - 1) == list[..|list| - 1];
      index := index - {back.key};
      victim := (back.key, back.value);
      list := list[..|list| - 1];
      listSize := listSize - 1;
    }

    method EnsureRoom() returns (ok: bool, evicted: seq<(K, V)>)
      requires Linked()
      modifies this`list, this`listSize, this`index
      ensures Linked() && ok == (capacity >= 1)
      ensures ok ==> Contents() == Kept(old(Contents()), capacity - 1)
      ensures ok ==> evicted == Evictions(old(Contents()), capacity - 1)
      ensures !ok ==> Contents() == old(Contents()) && evicted == []
    {
      hide Indexed, Evictions;
      evicted := [];
      if capacity < 1 {
        return false, evicted;
      }
      while listSize >= capacity
        invariant Linked() && |list| <= |old(list)| && list == old(list)[..|list|]
        invariant |list| == |old(list)| || |list| >= capacity - 1
        invariant Evictions(Pairs(old(list)), capacity - 1) == evicted + Evictions(Pairs(list), capacity - 1)
        decreases listSize
      {
        EvictedPrefix(old(list), list, capacity - 1, evicted);
        var victim := Evict();
        evicted := evicted + [victim];
      }
      assert Pairs(list) == Pairs(old(list))[..|list|];
      NothingToEvict(Pairs(list), capacity - 1);
      ok := true;
    }

    method Splay(i: nat)
      requires Linked() && i < |list|
      modifies this`list
      ensures Linked() && Contents() == ToFront(old(Contents()), i) && list[0] == old(list[i])
    {
      hide Indexed;
      MovedIndexed(list, index, nextId, i);
      PairsOf(list, i);
      list := ToFront(list, i);
    }

    method TryAdd(key: K, value: V) returns (ok: bool, evicted: seq<(K, V)>)
      requires Valid() && key !in index
      modifies this`list, this`listSize, this`index, this`nextId
      ensures Valid() && ok == (capacity >= 1)
      ensures Contents() == if ok then [(key, value)] + Kept(old(Contents()), capacity - 1) else old(Contents())
      ensures evicted == if ok then Evictions(old(Contents()), capacity - 1) else []
    {
      hide Evictions, Position, Indexed;
      IndexFinds(list, index, nextId, key);
      ok, evicted := EnsureRoom();
      if !ok {
        return;
      }
      KeptLacks(old(Contents()), capacity - 1, key);
      IndexFinds(list, index, nextId, key);
      AddedIndexed(list, index, nextId, key, value);
      list := [Node(nextId, key, value)] + list;
      listSize := listSize + 1;
      index := index[key := nextId];
      nextId := nextId + 1;
    }

    /** find(key, moveToFront), and the const find(key), which does not move. */
    method Find(key: K, moveToFront: bool) returns (found: Option<V>)
      requires Valid()
      modifies this`list, this`index, this`hits, this`misses
      ensures Valid() && index == old(index) && |list| == |old(list)|
      ensures var i := Position(old(Contents()), key);
        && found == (if i < 0 then None else Some(old(Contents())[i].1))
        && Contents() == (if i >= 0 && moveToFront then ToFront(old(Contents()), i) else old(Contents()))
        && hits == old(hits) + (if i >= 0 then 1 else 0) && misses == old(misses) + (if i < 0 then 1 else 0)
    {
      hide Position, Locate, Indexed;
      IndexFinds(list, index, nextId, key);
      if key !in index {
        misses := misses + 1;
        return None;
      }
      var i := Locate(list, index[key]);
      found := Some(list[i].value);
      if moveToFront {
        Splay(i);
        assert index == index[key := list[0].id];
        index := index[key := list[0].id];
      }
      hits := hits + 1;
    }

    /** try_get_or_create(): the value, or none when there is no capacity. */
    method TryGetOrCreate(key: K, factory: K -> V, moveToFront: bool) returns (value: Option<V>, evicted: seq<(K, V)>)
      requires Valid()
      modifies this`list, this`listSize, this`index, this`hits, this`misses, this`nextId
      ensures Valid()
      ensures Contents() == Gotten(old(Contents()), capacity, key, factory(key), moveToFront)
      ensures evicted == Displaced(old(Contents()), capacity, key)
      ensures Fetched(old(Contents()), Contents(), capacity, key, factory(key), moveToFront)
      ensures var i := Position(old(Contents()), key);
        && value == (if i >= 0 then Some(old(Contents())[i].1) else if capacity < 1 then None else Some(factory(key)))
        && hits == old(hits) + (if i >= 0 then 1 else 0) && misses == old(misses) + (if i < 0 then 1 else 0)
    {
      hide Position, Locate, Indexed, Kept, Evictions, Fetched, Distinct;
      IndexFinds(list, index, nextId, key);
      KeysDistinct(list, index, nextId);
      GottenFetches(Contents(), capacity, key, factory(key), moveToFront);
      value := Find(key, moveToFront);
      if value.Some? {
        return value, [];
      }
      var made := factory(key);
      var ok: bool;
      ok, evicted := TryAdd(key, made);
      value := if ok then Some(made) else None;
    }

    /** try_set(): 1 for a new entry, -1 for a changed one, 0 when there is no capacity. */
    method TrySet(key: K, value: V, moveToFront: bool) returns (code: int, evicted: seq<(K, V)>)
      requires Valid()
      modifies this`list, this`listSize, this`index, this`nextId
      ensures Valid()
      ensures Contents() == Put(old(Contents()), capacity, key, value, moveToFront)
      ensures evicted == Displaced(old(Contents()), capacity, key)
      ensures Stored(old(Contents()), Contents(), capacity, key, value, moveToFront)
      ensures code == if Position(old(Contents()), key) >= 0 then -1 else if capacity < 1 then 0 else 1
    {
      hide Position, Locate, Kept, Evictions, Indexed, Stored, Distinct;
      KeysDistinct(list, index, nextId);
      PutStores(Contents(), capacity, key, value, moveToFront);
      IndexFinds(list, index, nextId, key);
      if key !in index {
        var ok: bool;
        ok, evicted := TryAdd(key, value);
        return if ok then 1 else 0, evicted;
      }
      var i := Locate(list, index[key]);
      if moveToFront {
        Splay(i);
        assert index == index[key := list[0].id];
        index := index[key := list[0].id];
        i := 0;
      }
      ChangedIndexed(list, index, nextId, i, value);
      list := list[i := list[i].(value := value)];
      return -1, [];
    }

    /** erase(key) */
    method Erase(key: K) returns (erased: bool)
      requires Valid()
      modifies this`list, this`listSize, this`index
      ensures Valid() && erased == (Position(old(Contents()), key) >= 0)
      ensures Contents() == if erased then Without(old(Contents()), Position(old(Contents()), key)) else old(Contents())
      ensures Lookup(Contents(), key) == None
      ensures forall k :: k != key ==> Lookup(Contents(), k) == Lookup(old(Contents()), k)
    {
      hide Position, Locate, Indexed, Distinct;
      KeysDistinct(list, index, nextId);
      IndexFinds(list, index, nextId, key);
      if key !in index {
        return false;
      }
      var i := Locate(list, index[key]);
      WithoutLookup(Contents(), i);
      WithoutIndexed(list, index, nextId, i);
      PairsOf(list, i);
      assert list[i].key == key by { assert Pairs(list)[i].0 == key; }
      list := Without(list, i);
      listSize := listSize - 1;
      index := index - {key};
      return true;
    }

    /** erase(iterator): the place where the next entry is now. */
    method EraseAt(pos: nat) returns (next: nat)
      requires Valid() && pos < |list|
      modifies this`list, this`listSize, this`index
      ensures Valid() && Contents() == Without(old(Contents()), pos) && next == pos
    {
      hide Position, Locate, Indexed;
      var key := list[pos].key;
      IndexFinds(list, index, nextId, key);
      PositionAt(list, index, nextId, pos);
      next := Locate(list, index[key]);
      WithoutIndexed(list, index, nextId, next);
      PairsOf(list, next);
      list := Without(list, next);
      listSize := listSize - 1;
      index := index - {key};
    }

    /** capacity(n): the old capacity. */
    method SetCapacity(newCapacity: nat) returns (oldCapacity: nat, evicted: seq<(K, V)>)
      requires Valid()
      modifies this`list, this`listSize, this`index, this`capacity
      ensures Valid() && capacity == newCapacity && oldCapacity == old(capacity)
      ensures Contents() == Kept(old(Contents()), newCapacity) && evicted == Evictions(old(Contents()), newCapacity)
    {
      hide Indexed, Evictions;
      oldCapacity := capacity;
      evicted := [];
      var i := listSize;
      while newCapacity < i
        invariant Linked() && i == listSize && |list| <= |old(list)| && list == old(list)[..|list|]
        invariant capacity == old(capacity)
        invariant |list| == |old(list)| || |list| >= newCapacity
        invariant Evictions(Pairs(old(list)), newCapacity) == evicted + Evictions(Pairs(list), newCapacity)
        decreases i
      {
        EvictedPrefix(old(list), list, newCapacity, evicted);
        var victim := Evict();
        evicted := evicted + [victim];
        i := i - 1;
      }
      assert Pairs(list) == Pairs(old(list))[..|list|];
      NothingToEvict(Pairs(list), newCapacity);
      capacity := newCapacity;
    }

    method Clear(clearStats: bool)
      requires Valid()
      modifies this`list, this`listSize, this`index, this`hits, this`misses
      ensures Valid() && Contents() == []
      ensures hits == (if clearStats then 0 else old(hits)) && misses == (if clearStats then 0 else old(misses))
    {
      index, list, listSize := map[], [], 0;
      if clearStats {
        hits, misses := 0, 0;
      }
    }
  }

  lemma KeptLacks<K, V>(c: seq<(K, V)>, n: nat, key: K)
    requires Position(c, key) < 0
    ensures Position(Kept(c, n), key) < 0
  {
    hide Position;
  }
}
