/**
  The stack property of the LRU map: on any trace of set() and get_or_create() that move
  to the front, a map of capacity c holds the c most recently used keys, so a smaller map
  always holds a prefix of what a larger one holds.
 */
module LruStack {
  import opened LruMap
  import opened Options
  import opened Sequences

  datatype Op<K, V> =
    | Set(key: K, value: V)
    | GetOrCreate(key: K, made: V)         // made: what the factory would return

  /** What either operation does to the recency sequence, as LruMap's methods are proved to. */
  function Step<K(==), V>(c: seq<(K, V)>, capacity: nat, op: Op<K, V>): seq<(K, V)> {
    match op
    case Set(key, value) => Put(c, capacity, key, value, true)
    case GetOrCreate(key, made) => Gotten(c, capacity, key, made, true)
  }

  /** The recency sequence of a map after a trace, from empty. */
  function After<K(==), V>(capacity: nat, trace: seq<Op<K, V>>): seq<(K, V)> {
    if trace == [] then [] else Step(After(capacity, trace[..|trace| - 1]), capacity, trace[|trace| - 1])
  }

  /** A key's place in a sequence, or its length. */
  function Place<K(==)>(ks: seq<K>, key: K): (i: nat)
    ensures i <= |ks| && (i < |ks| <==> key in ks) && (i < |ks| ==> ks[i] == key)
  {
    if ks == [] then 0 else if ks[0] == key then 0 else Place(ks[1..], key) + 1
  }

  /** The key goes to the front, from where it stood if it was there. */
  function Used<K(==)>(ks: seq<K>, key: K): seq<K> {
    var i := Place(ks, key);
    [key] + (if i < |ks| then Without(ks, i) else ks)
  }

  /** The distinct keys of a trace, most recently used first. */
  function Recent<K(==), V>(trace: seq<Op<K, V>>): seq<K> {
    if trace == [] then [] else Used(Recent(trace[..|trace| - 1]), trace[|trace| - 1].key)
  }

  function Keys<K, V>(c: seq<(K, V)>): (ks: seq<K>)
    ensures |ks| == |c| && forall i :: 0 <= i < |c| ==> ks[i] == c[i].0
  {
    seq(|c|, i requires 0 <= i < |c| => c[i].0)
  }

  // ----- the reference order -----

  lemma UsedMembers<K>(ks: seq<K>, key: K, k: K)
    ensures k in Used(ks, key) <==> k == key || k in ks
  {
    hide Place;
    var i, u := Place(ks, key), Used(ks, key);
    if k in ks && k != key {
      var j :| 0 <= j < |ks| && ks[j] == k;
      assert u[if i < |ks| && j > i then j else j + 1] == k;
    }
  }

  lemma UsedNoRepeats<K>(ks: seq<K>, key: K)
    requires NoRepeats(ks)
    ensures NoRepeats(Used(ks, key))
    ensures forall k :: k in Used(ks, key) <==> k == key || k in ks
  {
    hide Place, Used;
    forall k ensures k in Used(ks, key) <==> k == key || k in ks {
      UsedMembers(ks, key, k);
    }
    UsedRestDistinct(ks, key);
  }

  lemma UsedRestDistinct<K>(ks: seq<K>, key: K)
    requires NoRepeats(ks)
    ensures NoRepeats(Used(ks, key))
  {
    hide Place;
    var p := Place(ks, key);
    var rest := if p < |ks| then Without(ks, p) else ks;
    forall i | 0 <= i < |rest| ensures rest[i] != key {
      assert rest[i] == ks[if i < p then i else i + 1];
    }
  }

  /** The last operation on a key, or -1. */
  function LastUse<K(==), V>(trace: seq<Op<K, V>>, key: K): (i: int)
    ensures -1 <= i < |trace| && (i >= 0 ==> trace[i].key == key)
    ensures forall j :: i < j < |trace| ==> trace[j].key != key
  {
    if trace == [] then -1
    else if trace[|trace| - 1].key == key then |trace| - 1
    else LastUse(trace[..|trace| - 1], key)
  }

  /** Recent() lists exactly the trace's keys, each once. */
  lemma {:induction false} RecentKeys<K, V>(trace: seq<Op<K, V>>)
    ensures NoRepeats(Recent(trace))
    ensures forall k :: k in Recent(trace) <==> LastUse(trace, k) >= 0
  {
    hide NoRepeats, Used;
    if trace == [] {
      assert NoRepeats<K>([]) by { NothingRepeats<K>(); }
    } else {
      var n := |trace| - 1;
      RecentKeys(trace[..n]);
      UsedNoRepeats(Recent(trace[..n]), trace[n].key);
    }
  }

  lemma NothingRepeats<K>()
    ensures NoRepeats<K>([])
  {}

  /** Where the rest of the sequence goes when a key is used. */
  lemma UsedRest<K>(ks: seq<K>, key: K, i: nat) returns (a: nat)
    requires 0 < i < |Used(ks, key)|
    ensures a < |ks| && Used(ks, key)[i] == ks[a]
    ensures a == if Place(ks, key) < |ks| && i > Place(ks, key) then i else i - 1
  {
    a := if Place(ks, key) < |ks| && i > Place(ks, key) then i else i - 1;
  }

  /** A key comes before another in Recent() when its last use is later. */
  lemma {:induction false} RecentOrder<K, V>(trace: seq<Op<K, V>>, i: nat, j: nat)
    requires i < j < |Recent(trace)|
    ensures LastUse(trace, Recent(trace)[i]) > LastUse(trace, Recent(trace)[j])
  {
    hide Used, Place, LastUse;
    var n := |trace| - 1;
    var was, key := Recent(trace[..n]), trace[n].key;
    UsedDistinct(trace, j);
    assert Recent(trace) == Used(was, key);
    var b := UsedRest(was, key, j);
    LastUseAppended(trace, was[b]);
    LastUseAppended(trace, key);
    if i == 0 {
      UsedFront(was, key);
    } else {
      UsedDistinct(trace, i);
      var a := UsedRest(was, key, i);
      LastUseAppended(trace, was[a]);
      RecentOrder(trace[..n], a, b);
    }
  }

  lemma UsedFront<K>(ks: seq<K>, key: K)
    ensures |Used(ks, key)| > 0 && Used(ks, key)[0] == key
  {}

  lemma UsedDistinct<K, V>(trace: seq<Op<K, V>>, j: nat)
    requires 0 < j < |Recent(trace)|
    ensures trace != [] && Recent(trace)[j] != trace[|trace| - 1].key
  {
    hide Used, Place, LastUse;
    RecentKeys(trace);
    UsedFront(Recent(trace[..|trace| - 1]), trace[|trace| - 1].key);
  }

  lemma LastUseAppended<K, V>(trace: seq<Op<K, V>>, key: K)
    requires trace != []
    ensures var n := |trace| - 1;
      LastUse(trace, key) == if trace[n].key == key then n else LastUse(trace[..n], key)
  {}

  // ----- the map against it -----

  lemma UsedTaken<K>(ks: seq<K>, capacity: nat, key: K)
    requires capacity >= 1
    ensures var c := Kept(ks, capacity);
      Kept(Used(ks, key), capacity) == if key in c then Used(c, key) else [key] + Kept(c, capacity - 1)
  {
    hide Place, Without;
    var c, i := Kept(ks, capacity), Place(ks, key);
    PlacePrefix(ks, |c|, key);
    assert ks[..|c|] == c;
    if i < |ks| {
      WithoutTaken(ks, i, capacity);
    } else {
      FrontTaken(ks, capacity, key);
    }
    if i < |ks| {
      FrontTaken(Without(ks, i), capacity, key);
    }
    assert |c| > 0 && i >= |c| && i < |ks| ==> Kept(c, capacity - 1) == ks[..capacity - 1];
  }

  lemma FrontTaken<K>(ks: seq<K>, capacity: nat, key: K)
    requires capacity >= 1
    ensures Kept([key] + ks, capacity) == [key] + Kept(ks, capacity - 1)
    ensures Kept(Kept(ks, capacity), capacity - 1) == Kept(ks, capacity - 1)
  {}

  lemma WithoutTaken<K>(ks: seq<K>, i: nat, capacity: nat)
    requires capacity >= 1 && i < |ks|
    ensures |Without(ks, i)| == |ks| - 1
    ensures i < capacity ==> Kept(Without(ks, i), capacity - 1) == Without(Kept(ks, capacity), i)
    ensures i >= capacity ==> Kept(Without(ks, i), capacity - 1) == ks[..capacity - 1]
  {}

  lemma {:induction false} PlacePrefix<K>(ks: seq<K>, n: nat, key: K)
    requires n <= |ks|
    ensures key in ks[..n] <==> Place(ks, key) < n
    ensures key in ks[..n] ==> Place(ks[..n], key) == Place(ks, key)
  {
    if n > 0 && ks[0] != key {
      PlacePrefix(ks[1..], n - 1, key);
      assert ks[..n][1..] == ks[1..][..n - 1];
      assert ks[..n] == [ks[0]] + ks[1..][..n - 1];
    }
  }

  lemma {:induction false} PlaceIsPosition<K, V>(c: seq<(K, V)>, key: K)
    ensures Place(Keys(c), key) == if Position(c, key) >= 0 then Position(c, key) else |c|
  {
    if c != [] && c[0].0 != key {
      assert Keys(c)[1..] == Keys(c[1..]);
      PlaceIsPosition(c[1..], key);
    }
  }

  lemma FrontKeys<K, V>(c: seq<(K, V)>, key: K, value: V)
    ensures Keys([(key, value)] + c) == [key] + Keys(c)
  {}

  lemma WithoutKeys<K, V>(c: seq<(K, V)>, i: nat)
    requires i < |c|
    ensures Keys(Without(c, i)) == Without(Keys(c), i)
  {}

  lemma KeptKeys<K, V>(c: seq<(K, V)>, n: nat)
    ensures Keys(Kept(c, n)) == Kept(Keys(c), n)
  {}

  /** Either operation, seen on the keys alone. */
  lemma StepKeys<K, V>(c: seq<(K, V)>, capacity: nat, op: Op<K, V>)
    requires capacity >= 1
    ensures Keys(Step(c, capacity, op))
         == if op.key in Keys(c) then Used(Keys(c), op.key) else [op.key] + Kept(Keys(c), capacity - 1)
  {
    hide Place, Position, Keys, Without, Kept;
    PlaceIsPosition(c, op.key);
    var i := Position(c, op.key);
    var value := if op.Set? then op.value else if i >= 0 then c[i].1 else op.made;
    if i >= 0 {
      WithoutKeys(c, i);
      FrontKeys(Without(c, i), op.key, value);
      assert c[i] == (op.key, c[i].1);
    } else {
      KeptKeys(c, capacity - 1);
      FrontKeys(Kept(c, capacity - 1), op.key, value);
    }
  }

  /** The map's keys are the first `capacity` of the trace's distinct keys, most recently used first. */
  lemma {:induction false} HoldsTheMostRecent<K, V>(capacity: nat, trace: seq<Op<K, V>>)
    requires capacity >= 1
    ensures Keys(After(capacity, trace)) == Kept(Recent(trace), capacity)
  {
    if trace != [] {
      var n := |trace| - 1;
      HoldsTheMostRecent(capacity, trace[..n]);
      StepKeys(After(capacity, trace[..n]), capacity, trace[n]);
      UsedTaken(Recent(trace[..n]), capacity, trace[n].key);
    }
  }

  /** What a key was given last: by a set(), or by the factory when get_or_create() found it no longer held. */
  function LastValue<K(==), V>(capacity: nat, trace: seq<Op<K, V>>, key: K): Option<V> {
    if trace == [] then None
    else
      var before, op := trace[..|trace| - 1], trace[|trace| - 1];
      if op.key != key then LastValue(capacity, before, key)
      else match op
           case Set(_, value) => Some(value)
           case GetOrCreate(_, made) =>
             if key in Kept(Recent(before), capacity) then LastValue(capacity, before, key) else Some(made)
  }

  lemma KeysApart<K, V>(c: seq<(K, V)>, ks: seq<K>, n: nat)
    requires Keys(c) == Kept(ks, n) && NoRepeats(ks)
    ensures Distinct(c)
  {
    forall i, j | 0 <= i < j < |c| ensures c[i].0 != c[j].0 {
      assert Keys(c)[i] == ks[i] && Keys(c)[j] == ks[j];
    }
  }

  lemma HeldIff<K, V>(capacity: nat, trace: seq<Op<K, V>>, key: K)
    requires capacity >= 1
    ensures Lookup(After(capacity, trace), key).Some? <==> key in Kept(Recent(trace), capacity)
    ensures Distinct(After(capacity, trace))
  {
    hide Position, Place, Recent, Kept;
    HoldsTheMostRecent(capacity, trace);
    RecentKeys(trace);
    KeysApart(After(capacity, trace), Recent(trace), capacity);
    PlaceIsPosition(After(capacity, trace), key);
  }

  /** Every key that is held is held with the value it was given last. */
  lemma {:induction false} HeldValue<K(!new), V>(capacity: nat, trace: seq<Op<K, V>>, key: K)
    requires capacity >= 1 && key in Kept(Recent(trace), capacity)
    ensures Lookup(After(capacity, trace), key) == LastValue(capacity, trace, key)
  {
    hide Kept, Put, Gotten, Lookup, Distinct, Used, NoRepeats;
    if trace != [] {
      var before, op := trace[..|trace| - 1], trace[|trace| - 1];
      var c := After(capacity, before);
      HeldIff(capacity, trace, key);
      HeldIff(capacity, before, key);
      if op.Set? {
        PutStores(c, capacity, op.key, op.value, true);
      } else {
        GottenFetches(c, capacity, op.key, op.made, true);
      }
      if key in Kept(Recent(before), capacity) {
        HeldValue(capacity, before, key);
      }
    } else {
      NothingKept<K, V>(capacity);
    }
  }

  lemma NothingKept<K, V>(capacity: nat)
    ensures Kept(Recent<K, V>([]), capacity) == []
  {}

  /** A smaller map's keys are a prefix of a larger one's. */
  lemma SmallerIsAPrefix<K, V>(small: nat, large: nat, trace: seq<Op<K, V>>)
    requires 1 <= small <= large
    ensures Keys(After(small, trace)) <= Keys(After(large, trace))
  {
    HoldsTheMostRecent(small, trace);
    HoldsTheMostRecent(large, trace);
  }

  /** The map's hit count: get_or_create() looks its key up with find(), which counts, and set() does not. */
  function Hits<K(==), V>(capacity: nat, trace: seq<Op<K, V>>): nat {
    if trace == [] then 0
    else
      var c, op := After(capacity, trace[..|trace| - 1]), trace[|trace| - 1];
      Hits(capacity, trace[..|trace| - 1]) + if op.GetOrCreate? && Position(c, op.key) >= 0 then 1 else 0
  }

  /** Operation by operation, of either kind, a key that the smaller map has the larger one has, too. */
  lemma LargerFindsMore<K, V>(small: nat, large: nat, trace: seq<Op<K, V>>, key: K)
    requires 1 <= small <= large && Position(After(small, trace), key) >= 0
    ensures Position(After(large, trace), key) >= 0
  {
    SmallerIsAPrefix(small, large, trace);
    PlaceIsPosition(After(small, trace), key);
    PlaceIsPosition(After(large, trace), key);
  }

  /** A larger map never hits less. */
  lemma {:induction false} LargerNeverHitsLess<K, V>(small: nat, large: nat, trace: seq<Op<K, V>>)
    requires 1 <= small <= large
    ensures Hits(small, trace) <= Hits(large, trace)
  {
    if trace != [] {
      var n := |trace| - 1;
      LargerNeverHitsLess(small, large, trace[..n]);
      if Position(After(small, trace[..n]), trace[n].key) >= 0 {
        LargerFindsMore(small, large, trace[..n], trace[n].key);
      }
    }
  }

  /** A trace replayed on the map itself, from empty: what it then holds and has counted. */
  method Replay<K(==, !new), V>(capacity: nat, trace: seq<Op<K, V>>) returns (m: LruMap<K, V>)
    ensures fresh(m) && m.Valid() && m.capacity == capacity
    ensures m.Contents() == After(capacity, trace) && m.hits == Hits(capacity, trace)
  {
    hide Put, Gotten, Position;
    m := new LruMap<K, V>(capacity);
    for n := 0 to |trace|
      invariant fresh(m) && m.Valid() && m.capacity == capacity
      invariant m.Contents() == After(capacity, trace[..n]) && m.hits == Hits(capacity, trace[..n])
    {
      assert trace[..n + 1][..n] == trace[..n];
      match trace[n]
      case Set(key, value) =>
        var _, _ := m.TrySet(key, value, true);
      case GetOrCreate(key, made) =>
        var _, _ := m.TryGetOrCreate(key, _ => made, true);
    }
    assert trace[..|trace|] == trace;
  }
}
