/** The invariant of `NameSet` over every run, and what get() promises its callers. */
module NameSetProof {
  import opened NameSet

  // ----- steps that move one thread on and change nothing it shares -----

  lemma PcKeeps(bucket: string -> nat, s: State, t: nat, pc: Pc)
    requires Inv(bucket, s) && t < |s.threads| && ThreadOk(s, pc)
    requires !pc.SlowInsert? && !s.threads[t].SlowInsert?
    requires forall a: nat :: Deletes(pc, a) == Deletes(s.threads[t], a)
    requires Exclusive(pc) || Shared(pc) ==>
      forall u :: 0 <= u < |s.threads| && u != t ==> Apart(bucket, pc, s.threads[u]) && Apart(bucket, s.threads[u], pc)
    ensures Inv(bucket, Put(s, t, pc))
  {
    var s' := Put(s, t, pc);
    forall a | a in s'.heap ensures Kept(s', a) {
      assert Kept(s, a);
      forall u | 0 <= u < |s.threads| ensures Deletes(s'.threads[u], a) == Deletes(s.threads[u], a) {}
      forall u | 0 <= u < |s.threads| ensures Inserting(s'.threads[u], a) == Inserting(s.threads[u], a) {}
    }
    forall u | 0 <= u < |s'.threads| ensures ThreadOk(s', s'.threads[u]) {
      assert u != t ==> ThreadOk(s, s.threads[u]);
      SameMemory(s, s', s'.threads[u]);
    }
    forall i | 0 <= i < |s'.returned| ensures ReturnOk(s', s'.returned[i]) {
      assert ReturnOk(s, s.returned[i]);
    }
    forall u, v | 0 <= u < |s'.threads| && 0 <= v < |s'.threads| && u != v
      ensures Apart(bucket, s'.threads[u], s'.threads[v])
    {
      if u == t {
        assert Apart(bucket, s.threads[t], s.threads[v]);
      } else if v == t {
        assert Apart(bucket, s.threads[u], s.threads[t]);
      } else {
        assert Apart(bucket, s.threads[u], s.threads[v]);
      }
    }
  }

  /** A thread's knowledge is about the heap, the counts and the keys alone. */
  lemma SameMemory(s: State, s': State, pc: Pc)
    requires s'.heap == s.heap && s'.strong == s.strong && s'.keys == s.keys && ThreadOk(s, pc)
    ensures ThreadOk(s', pc)
  {
    if pc.SlowNew? || pc.SlowInsert? {
      forall k | k in s'.keys ensures !Named(s', k, pc.name) {
        assert !Named(s, k, pc.name);
      }
    }
  }

  lemma AcquireKeeps(bucket: string -> nat, s: State, t: nat)
    requires Inv(bucket, s)
    ensures Inv(bucket, Next(bucket, s, Acquire(t)))
  {
    if Next(bucket, s, Acquire(t)) != s {
      var pc := s.threads[t];
      assert ThreadOk(s, pc);
      forall u | 0 <= u < |s.threads| && u != t
        ensures Apart(bucket, Locked(pc), s.threads[u]) && Apart(bucket, s.threads[u], Locked(pc))
      {
        assert Apart(bucket, pc, s.threads[u]) && Apart(bucket, s.threads[u], pc);
      }
      PcKeeps(bucket, s, t, Locked(pc));
    }
  }

  lemma FindKeeps(bucket: string -> nat, s: State, t: nat, key: Key)
    requires Inv(bucket, s)
    ensures Inv(bucket, Next(bucket, s, Find(t, key)))
  {
    if Next(bucket, s, Find(t, key)) != s {
      var pc := s.threads[t];
      assert ThreadOk(s, pc);
      forall u | 0 <= u < |s.threads| && u != t
        ensures Apart(bucket, Found(pc, key), s.threads[u]) && Apart(bucket, s.threads[u], Found(pc, key))
      {
        assert Apart(bucket, pc, s.threads[u]) && Apart(bucket, s.threads[u], pc);
      }
      PcKeeps(bucket, s, t, Found(pc, key));
    }
  }

  lemma MissKeeps(bucket: string -> nat, s: State, t: nat)
    requires Inv(bucket, s)
    ensures Inv(bucket, Next(bucket, s, Miss(t)))
  {
    if Next(bucket, s, Miss(t)) != s {
      var pc := s.threads[t];
      assert ThreadOk(s, pc);
      if pc.CleanFind? {
        forall k | k in s.keys ensures k.addr != pc.addr {
          assert !Named(s, k, pc.name);
        }
      }
      forall u | 0 <= u < |s.threads| && u != t
        ensures Apart(bucket, Missed(pc), s.threads[u]) && Apart(bucket, s.threads[u], Missed(pc))
      {
        assert Apart(bucket, pc, s.threads[u]) && Apart(bucket, s.threads[u], pc);
      }
      PcKeeps(bucket, s, t, Missed(pc));
    }
  }

  // ----- reference counts -----

  /** Counts that change without reaching or leaving zero change no one's knowledge. */
  lemma RecountKeeps(bucket: string -> nat, s: State, cb: nat, n: nat)
    requires Inv(bucket, s) && Counted(s, cb) && n > 0
    ensures Inv(bucket, Count(s, cb, n))
  {
    var s' := Count(s, cb, n);
    assert forall c: nat :: Counted(s', c) == Counted(s, c);
    forall a | a in s'.heap ensures Kept(s', a) {
      assert Kept(s, a);
    }
    forall u | 0 <= u < |s'.threads| ensures ThreadOk(s', s'.threads[u]) {
      assert ThreadOk(s, s.threads[u]);
      SameCounts(s, s', s.threads[u]);
    }
    forall i | 0 <= i < |s'.returned| ensures ReturnOk(s', s'.returned[i]) {
      assert ReturnOk(s, s.returned[i]);
    }
  }

  lemma SameCounts(s: State, s': State, pc: Pc)
    requires s'.heap == s.heap && s'.keys == s.keys && ThreadOk(s, pc)
    requires forall c: nat :: Counted(s', c) == Counted(s, c)
    ensures ThreadOk(s', pc)
  {
    if pc.SlowNew? || pc.SlowInsert? {
      forall k | k in s'.keys ensures !Named(s', k, pc.name) {
        assert !Named(s, k, pc.name);
      }
    }
  }

  lemma ReturnKeeps(bucket: string -> nat, s: State, r: Return)
    requires Inv(bucket, s) && ReturnOk(s, r)
    ensures Inv(bucket, s.(returned := s.returned + [r]))
  {
    var s' := s.(returned := s.returned + [r]);
    forall a | a in s'.heap ensures Kept(s', a) {
      assert Kept(s, a);
    }
    forall u | 0 <= u < |s'.threads| ensures ThreadOk(s', s'.threads[u]) {
      assert ThreadOk(s, s.threads[u]);
      SameMemory(s, s', s.threads[u]);
    }
    forall i | 0 <= i < |s'.returned| ensures ReturnOk(s', s'.returned[i]) {
      assert i < |s.returned| ==> ReturnOk(s, s.returned[i]);
    }
  }

  lemma LockSucceeds(bucket: string -> nat, s: State, t: nat, key: Key)
    requires Inv(bucket, s) && t < |s.threads| && (s.threads[t].FastLock? || s.threads[t].SlowLock?)
    requires key == s.threads[t].key && Counted(s, key.cb)
    ensures Inv(bucket, Returns(Count(s, key.cb, s.strong[key.cb] + 1), t, s.threads[t].name, key))
  {
    var name := s.threads[t].name;
    var s1 := Count(s, key.cb, s.strong[key.cb] + 1);
    assert ThreadOk(s, s.threads[t]);
    assert ReturnOk(Put(s1, t, Idle), Return(t, name, key));
    hide Inv;
    RecountKeeps(bucket, s, key.cb, s.strong[key.cb] + 1);
    PcKeeps(bucket, s1, t, Idle);
    ReturnKeeps(bucket, Put(s1, t, Idle), Return(t, name, key));
  }

  lemma LockFails(bucket: string -> nat, s: State, t: nat)
    requires Inv(bucket, s) && t < |s.threads| && (s.threads[t].FastLock? || s.threads[t].SlowLock?)
    requires !Counted(s, s.threads[t].key.cb)
    ensures var pc := s.threads[t];
      Inv(bucket, Put(s, t, if pc.FastLock? then Slow(pc.name) else SlowErase(pc.name, pc.key)))
  {
    var pc := s.threads[t];
    var next := if pc.FastLock? then Slow(pc.name) else SlowErase(pc.name, pc.key);
    assert ThreadOk(s, pc);
    forall u | 0 <= u < |s.threads| && u != t
      ensures Apart(bucket, next, s.threads[u]) && Apart(bucket, s.threads[u], next)
    {
      assert Apart(bucket, pc, s.threads[u]) && Apart(bucket, s.threads[u], pc);
    }
    PcKeeps(bucket, s, t, next);
  }

  lemma LockKeeps(bucket: string -> nat, s: State, t: nat, addr: nat)
    requires Inv(bucket, s) && t < |s.threads| && (s.threads[t].FastLock? || s.threads[t].SlowLock?)
    ensures Inv(bucket, NextStep(s, t, addr))
  {
    hide Inv;
    if Counted(s, s.threads[t].key.cb) {
      LockSucceeds(bucket, s, t, s.threads[t].key);
    } else {
      LockFails(bucket, s, t);
    }
  }

  predicate Expired(s: State, s': State, t: nat, addr: nat) {
    && t < |s.threads| && s.threads[t] == Idle && Handed(s, addr)
    && s'.heap == s.heap && s'.keys == s.keys && s'.returned == s.returned && |s'.strong| == |s.strong|
    && s'.threads == s.threads[t := Clean(s.heap[addr].name, addr)]
    && (forall c :: 0 <= c < |s.strong| ==> s'.strong[c] == if c == s.heap[addr].cb then 0 else s.strong[c])
  }

  lemma ExpireStrings(s: State, s': State, t: nat, addr: nat)
    requires HeapOk(s) && StringsOk(s) && Expired(s, s', t, addr)
    ensures StringsOk(s')
  {
    assert Deletes(s'.threads[t], addr);
    forall a | a in s'.heap ensures Kept(s', a) {
      assert Kept(s, a);
      forall u | 0 <= u < |s.threads| && u != t ensures s'.threads[u] == s.threads[u] {}
      assert a != addr ==> Live(s', a) == Live(s, a);
    }
  }

  lemma ExpireThreads(s: State, s': State, t: nat, addr: nat)
    requires HeapOk(s) && ThreadsOk(s) && Expired(s, s', t, addr)
    ensures ThreadsOk(s')
  {
    hide ThreadOk;
    forall u | 0 <= u < |s'.threads| ensures ThreadOk(s', s'.threads[u]) {
      if u != t {
        OthersCounts(s, s', addr, s.threads[u]);
      } else {
        DeleterCounts(s, s', t, addr);
      }
    }
  }

  lemma DeleterCounts(s: State, s': State, t: nat, addr: nat)
    requires HeapOk(s) && Expired(s, s', t, addr)
    ensures ThreadOk(s', Clean(s.heap[addr].name, addr))
  {}

  lemma ExpireApart(bucket: string -> nat, s: State, s': State, t: nat, addr: nat)
    requires ThreadsOk(s) && AllApart(bucket, s) && Expired(s, s', t, addr)
    ensures AllApart(bucket, s')
  {
    forall u, v | 0 <= u < |s'.threads| && 0 <= v < |s'.threads| && u != v
      ensures Apart(bucket, s'.threads[u], s'.threads[v])
    {
      assert Apart(bucket, s.threads[u], s.threads[v]);
      assert ThreadOk(s, s.threads[u]) && ThreadOk(s, s.threads[v]);
    }
  }

  lemma ExpireReturns(s: State, s': State, t: nat, addr: nat)
    requires HeapOk(s) && ReturnsOk(s) && Expired(s, s', t, addr)
    ensures ReturnsOk(s')
  {
    forall i | 0 <= i < |s'.returned| ensures ReturnOk(s', s'.returned[i]) {
      assert ReturnOk(s, s.returned[i]);
    }
  }

  /** The last reference goes: the thread that drops it becomes the string's deleter. */
  lemma ExpireKeeps(bucket: string -> nat, s: State, t: nat, addr: nat)
    requires Inv(bucket, s) && t < |s.threads| && s.threads[t] == Idle && Handed(s, addr)
    ensures Inv(bucket, Put(Count(s, s.heap[addr].cb, 0), t, Clean(s.heap[addr].name, addr)))
  {
    var s' := Put(Count(s, s.heap[addr].cb, 0), t, Clean(s.heap[addr].name, addr));
    assert Expired(s, s', t, addr);
    hide StringsOk, ThreadsOk, AllApart, ReturnsOk, Expired;
    ExpireStrings(s, s', t, addr);
    ExpireThreads(s, s', t, addr);
    ExpireApart(bucket, s, s', t, addr);
    ExpireReturns(s, s', t, addr);
  }

  lemma OthersCounts(s: State, s': State, addr: nat, pc: Pc)
    requires s'.heap == s.heap && s'.keys == s.keys && HeapOk(s) && ThreadOk(s, pc) && Live(s, addr)
    requires pc.SlowInsert? ==> pc.key.addr != addr
    requires |s'.strong| == |s.strong|
    requires forall c :: 0 <= c < |s.strong| ==> s'.strong[c] == if c == s.heap[addr].cb then 0 else s.strong[c]
    ensures ThreadOk(s', pc)
  {
    if pc.SlowNew? || pc.SlowInsert? {
      forall k | k in s'.keys ensures !Named(s', k, pc.name) {
        assert !Named(s, k, pc.name);
      }
    }
  }

  lemma DropKeeps(bucket: string -> nat, s: State, t: nat, addr: nat)
    requires Inv(bucket, s)
    ensures Inv(bucket, Next(bucket, s, Drop(t, addr)))
  {
    hide Inv;
    if t < |s.threads| && s.threads[t] == Idle && Handed(s, addr) {
      var o := s.heap[addr];
      if s.strong[o.cb] == 1 {
        ExpireKeeps(bucket, s, t, addr);
      } else {
        RecountKeeps(bucket, s, o.cb, s.strong[o.cb] - 1);
      }
    }
  }

  // ----- the set and the heap -----

  /** While one thread holds a bucket's lock exclusively, no other is at a key of a name in it. */
  lemma NoOneElseThere(bucket: string -> nat, s: State, t: nat, u: nat)
    requires Inv(bucket, s) && t < |s.threads| && u < |s.threads| && t != u
    requires Exclusive(s.threads[t]) && (Exclusive(s.threads[u]) || Shared(s.threads[u]))
    ensures s.threads[u].name != s.threads[t].name
  {
    assert Apart(bucket, s.threads[t], s.threads[u]);
  }

  /** What the other threads know survives the removal of a key of the holder's name. */
  lemma RemovalKeepsOthers(bucket: string -> nat, s: State, s': State, t: nat, u: nat, key: Key)
    requires Inv(bucket, s) && t < |s.threads| && u < |s.threads| && t != u && Exclusive(s.threads[t])
    requires Named(s, key, s.threads[t].name)
    requires s'.heap == s.heap && s'.strong == s.strong && s'.keys == s.keys - {key}
    ensures ThreadOk(s', s.threads[u])
  {
    var pc := s.threads[u];
    assert ThreadOk(s, pc);
    if Exclusive(pc) || Shared(pc) {
      NoOneElseThere(bucket, s, t, u);
    }
    if pc.SlowNew? || pc.SlowInsert? {
      forall k | k in s'.keys ensures !Named(s', k, pc.name) {
        assert !Named(s, k, pc.name);
      }
    }
  }

  /** An expired key leaves the set; the holder of its bucket's lock moves on. */
  lemma RemoveKeeps(bucket: string -> nat, s: State, t: nat, key: Key, pc: Pc)
    requires Inv(bucket, s) && t < |s.threads| && Exclusive(s.threads[t]) && !s.threads[t].SlowInsert?
    requires Named(s, key, s.threads[t].name) && !Counted(s, key.cb)
    requires !pc.SlowInsert? && (pc.SlowNew? || !Exclusive(pc)) && !Shared(pc)
    requires (pc.SlowNew? ==> pc.name == s.threads[t].name)
    requires forall a: nat :: Deletes(pc, a) == Deletes(s.threads[t], a)
    requires ThreadOk(s.(keys := s.keys - {key}), pc)
    ensures Inv(bucket, Put(s, t, pc).(keys := s.keys - {key}))
  {
    var s1 := s.(keys := s.keys - {key});
    var s' := Put(s, t, pc).(keys := s.keys - {key});
    forall a | a in s'.heap ensures Kept(s', a) {
      assert Kept(s, a);
      forall u | 0 <= u < |s.threads| ensures Deletes(s'.threads[u], a) == Deletes(s.threads[u], a) {}
      forall u | 0 <= u < |s.threads| ensures Inserting(s'.threads[u], a) == Inserting(s.threads[u], a) {}
      assert Live(s', a) == Live(s, a);
    }
    forall u | 0 <= u < |s'.threads| ensures ThreadOk(s', s'.threads[u]) {
      if u == t {
        SameMemory(s1, s', pc);
      } else {
        RemovalKeepsOthers(bucket, s, s', t, u, key);
      }
    }
    forall u, v | 0 <= u < |s'.threads| && 0 <= v < |s'.threads| && u != v
      ensures Apart(bucket, s'.threads[u], s'.threads[v])
    {
      assert Apart(bucket, s.threads[u], s.threads[v]);
    }
    forall i | 0 <= i < |s'.returned| ensures ReturnOk(s', s'.returned[i]) {
      assert ReturnOk(s, s.returned[i]);
    }
  }

  lemma EraseKeeps(bucket: string -> nat, s: State, t: nat, addr: nat)
    requires Inv(bucket, s) && t < |s.threads| && s.threads[t].SlowErase?
    ensures Inv(bucket, NextStep(s, t, addr))
  {
    var pc := s.threads[t];
    var s1 := s.(keys := s.keys - {pc.key});
    assert ThreadOk(s, pc);
    forall k | k in s1.keys ensures !Named(s1, k, pc.name) {}
    RemoveKeeps(bucket, s, t, pc.key, SlowNew(pc.name));
  }

  lemma CompareKeeps(bucket: string -> nat, s: State, t: nat, addr: nat)
    requires Inv(bucket, s) && t < |s.threads| && s.threads[t].CleanCompare?
    ensures Inv(bucket, NextStep(s, t, addr))
  {
    var pc := s.threads[t];
    assert ThreadOk(s, pc);
    if pc.key.addr == pc.addr {
      RemoveKeeps(bucket, s, t, pc.key, Delete(pc.addr));
    } else {
      PcKeeps(bucket, s, t, Delete(pc.addr));
    }
  }

  /** A new string gets an address that is free, perhaps one used before. */
  lemma NewKeeps(bucket: string -> nat, s: State, t: nat, addr: nat)
    requires Inv(bucket, s) && t < |s.threads| && s.threads[t].SlowNew? && addr !in s.heap
    ensures Inv(bucket, NextStep(s, t, addr))
  {
    var name, cb := s.threads[t].name, |s.strong|;
    var s' := NextStep(s, t, addr);
    assert ThreadOk(s, s.threads[t]);
    assert forall c: nat :: c != cb ==> Counted(s', c) == Counted(s, c);
    assert Inserting(s'.threads[t], addr) && Live(s', addr);
    forall a | a in s'.heap ensures Kept(s', a) {
      if a != addr {
        assert Kept(s, a) && Live(s', a) == Live(s, a);
        forall u | 0 <= u < |s.threads| && u != t ensures s'.threads[u] == s.threads[u] {}
      }
    }
    forall u | 0 <= u < |s'.threads| ensures ThreadOk(s', s'.threads[u]) {
      assert ThreadOk(s, s.threads[u]);
      NewKeepsThread(s, s', s.threads[u], addr, Obj(name, cb));
    }
    forall u, v | 0 <= u < |s'.threads| && 0 <= v < |s'.threads| && u != v
      ensures Apart(bucket, s'.threads[u], s'.threads[v])
    {
      assert Apart(bucket, s.threads[u], s.threads[v]);
    }
    forall i | 0 <= i < |s'.returned| ensures ReturnOk(s', s'.returned[i]) {
      assert ReturnOk(s, s.returned[i]);
    }
  }

  lemma NewKeepsThread(s: State, s': State, pc: Pc, addr: nat, o: Obj)
    requires KeysOk(s) && HeapOk(s) && ThreadOk(s, pc) && addr !in s.heap && o.cb == |s.strong|
    requires s'.heap == s.heap[addr := o] && s'.keys == s.keys && s'.strong == s.strong + [1]
    ensures ThreadOk(s', pc)
  {
    if pc.SlowNew? || pc.SlowInsert? {
      forall k | k in s'.keys ensures !Named(s', k, pc.name) {
        assert !Named(s, k, pc.name);
      }
    }
  }

  predicate Inserted(s: State, s': State, t: nat) {
    && t < |s.threads| && s.threads[t].SlowInsert?
    && s'.heap == s.heap && s'.strong == s.strong && s'.keys == s.keys + {s.threads[t].key}
    && s'.threads == s.threads[t := Idle]
    && s'.returned == s.returned + [Return(t, s.threads[t].name, s.threads[t].key)]
  }

  lemma InsertKeys(s: State, s': State, t: nat)
    requires KeysOk(s) && Inserted(s, s', t) && ThreadOk(s, s.threads[t])
    ensures KeysOk(s')
  {
    forall k | k in s.keys ensures s.heap[k.addr].name != s.threads[t].name {
      assert !Named(s, k, s.threads[t].name);
    }
  }

  lemma InsertStrings(s: State, s': State, t: nat)
    requires StringsOk(s) && Inserted(s, s', t) && ThreadOk(s, s.threads[t])
    ensures StringsOk(s')
  {
    forall a | a in s'.heap ensures Kept(s', a) {
      assert Kept(s, a) && Live(s', a) == Live(s, a);
      forall u | 0 <= u < |s.threads| && u != t ensures s'.threads[u] == s.threads[u] {}
    }
  }

  lemma InsertThreads(bucket: string -> nat, s: State, s': State, t: nat)
    requires Inv(bucket, s) && Inserted(s, s', t)
    ensures ThreadsOk(s')
  {
    hide ThreadOk, Inv;
    forall u | 0 <= u < |s'.threads| ensures ThreadOk(s', s'.threads[u]) {
      if u != t {
        InsertKeepsThread(bucket, s, s', t, u);
      } else {
        IdleKnowsNothing(s');
      }
    }
  }

  lemma IdleKnowsNothing(s: State)
    ensures ThreadOk(s, Idle)
  {}

  /** A thread that goes idle keeps out of everyone's way. */
  lemma IdleApart(bucket: string -> nat, s: State, s': State, t: nat)
    requires AllApart(bucket, s) && t < |s.threads| && s'.threads == s.threads[t := Idle]
    ensures AllApart(bucket, s')
  {
    forall u, v | 0 <= u < |s'.threads| && 0 <= v < |s'.threads| && u != v
      ensures Apart(bucket, s'.threads[u], s'.threads[v])
    {
      assert Apart(bucket, s.threads[u], s.threads[v]);
    }
  }

  lemma InsertReturns(s: State, s': State, t: nat)
    requires ReturnsOk(s) && HeapOk(s) && Inserted(s, s', t) && ThreadOk(s, s.threads[t])
    ensures ReturnsOk(s')
  {
    forall i | 0 <= i < |s'.returned| ensures ReturnOk(s', s'.returned[i]) {
      assert i < |s.returned| ==> ReturnOk(s, s.returned[i]);
    }
  }

  lemma InsertKeeps(bucket: string -> nat, s: State, t: nat, addr: nat)
    requires Inv(bucket, s) && t < |s.threads| && s.threads[t].SlowInsert?
    ensures Inv(bucket, NextStep(s, t, addr))
  {
    hide KeysOk, StringsOk, AllApart, ReturnsOk, Absent;
    var s' := NextStep(s, t, addr);
    assert ThreadOk(s, s.threads[t]);
    assert Inserted(s, s', t);
    InsertKeys(s, s', t);
    InsertStrings(s, s', t);
    InsertThreads(bucket, s, s', t);
    IdleApart(bucket, s, s', t);
    InsertReturns(s, s', t);
  }

  lemma InsertKeepsThread(bucket: string -> nat, s: State, s': State, t: nat, u: nat)
    requires Inv(bucket, s) && t < |s.threads| && u < |s.threads| && t != u && s.threads[t].SlowInsert?
    requires s'.heap == s.heap && s'.strong == s.strong && s'.keys == s.keys + {s.threads[t].key}
    ensures ThreadOk(s', s.threads[u])
  {
    var pc := s.threads[u];
    assert ThreadOk(s, pc) && ThreadOk(s, s.threads[t]);
    if pc.SlowNew? || pc.SlowInsert? {
      NoOneElseThere(bucket, s, t, u);
      forall k | k in s'.keys ensures !Named(s', k, pc.name) {
        assert k in s.keys ==> !Named(s, k, pc.name);
      }
    }
  }

  lemma DeleteKeeps(bucket: string -> nat, s: State, t: nat, addr: nat)
    requires Inv(bucket, s) && t < |s.threads| && s.threads[t].Delete?
    ensures Inv(bucket, NextStep(s, t, addr))
  {
    var mine := s.threads[t].addr;
    var s' := NextStep(s, t, addr);
    assert ThreadOk(s, s.threads[t]) && Deletes(s.threads[t], mine);
    forall a | a in s'.heap ensures Kept(s', a) {
      assert Kept(s, a) && Live(s', a) == Live(s, a);
      forall u | 0 <= u < |s.threads| && u != t ensures s'.threads[u] == s.threads[u] {}
    }
    forall u | 0 <= u < |s'.threads| ensures ThreadOk(s', s'.threads[u]) {
      assert ThreadOk(s, s.threads[u]);
      if u != t {
        assert Apart(bucket, s.threads[t], s.threads[u]);
        DeleteKeepsThread(s, s', s.threads[u], mine);
      }
    }
    forall u, v | 0 <= u < |s'.threads| && 0 <= v < |s'.threads| && u != v
      ensures Apart(bucket, s'.threads[u], s'.threads[v])
    {
      assert Apart(bucket, s.threads[u], s.threads[v]);
    }
    forall i | 0 <= i < |s'.returned| ensures ReturnOk(s', s'.returned[i]) {
      assert ReturnOk(s, s.returned[i]);
    }
  }

  lemma DeleteKeepsThread(s: State, s': State, pc: Pc, mine: nat)
    requires KeysOk(s) && ThreadOk(s, pc) && !Deletes(pc, mine) && mine in s.heap && !Live(s, mine)
    requires forall k :: k in s.keys ==> k.addr != mine
    requires s'.heap == s.heap - {mine} && s'.keys == s.keys && s'.strong == s.strong
    ensures ThreadOk(s', pc)
  {
    if pc.SlowNew? || pc.SlowInsert? {
      forall k | k in s'.keys ensures !Named(s', k, pc.name) {
        assert !Named(s, k, pc.name);
      }
    }
  }

  // ----- every run -----

  lemma StepKeeps(bucket: string -> nat, s: State, t: nat, addr: nat)
    requires Inv(bucket, s) && t < |s.threads|
    ensures Inv(bucket, NextStep(s, t, addr))
  {
    hide Inv;
    var pc := s.threads[t];
    if pc.FastLock? || pc.SlowLock? {
      LockKeeps(bucket, s, t, addr);
    } else if pc.SlowErase? {
      EraseKeeps(bucket, s, t, addr);
    } else if pc.SlowNew? {
      if addr !in s.heap {
        NewKeeps(bucket, s, t, addr);
      }
    } else if pc.SlowInsert? {
      InsertKeeps(bucket, s, t, addr);
    } else if pc.CleanCompare? {
      CompareKeeps(bucket, s, t, addr);
    } else if pc.Delete? {
      DeleteKeeps(bucket, s, t, addr);
    }
  }

  lemma SpawnKeeps(bucket: string -> nat, s: State)
    requires Inv(bucket, s)
    ensures Inv(bucket, s.(threads := s.threads + [Idle]))
  {
    var s' := s.(threads := s.threads + [Idle]);
    forall a | a in s'.heap ensures Kept(s', a) {
      assert Kept(s, a);
      forall u | 0 <= u < |s.threads| ensures s'.threads[u] == s.threads[u] {}
    }
    forall u | 0 <= u < |s'.threads| ensures ThreadOk(s', s'.threads[u]) {
      if u < |s.threads| {
        assert ThreadOk(s, s.threads[u]);
        SameMemory(s, s', s.threads[u]);
      }
    }
    forall u, v | 0 <= u < |s'.threads| && 0 <= v < |s'.threads| && u != v
      ensures Apart(bucket, s'.threads[u], s'.threads[v])
    {
      assert u < |s.threads| && v < |s.threads| ==> Apart(bucket, s.threads[u], s.threads[v]);
    }
    forall i | 0 <= i < |s'.returned| ensures ReturnOk(s', s'.returned[i]) {
      assert ReturnOk(s, s.returned[i]);
    }
  }

  lemma NextKeeps(bucket: string -> nat, s: State, a: Action)
    requires Inv(bucket, s)
    ensures Inv(bucket, Next(bucket, s, a))
  {
    hide Inv, NextStep;
    match a
    case Spawn => SpawnKeeps(bucket, s);
    case Get(t, name) =>
      if t < |s.threads| && s.threads[t] == Idle {
        GetKeeps(bucket, s, t, name);
      }
    case Acquire(t) => AcquireKeeps(bucket, s, t);
    case Find(t, key) => FindKeeps(bucket, s, t, key);
    case Miss(t) => MissKeeps(bucket, s, t);
    case Step(t, addr) =>
      if t < |s.threads| {
        StepKeeps(bucket, s, t, addr);
      }
    case Copy(addr) =>
      if Handed(s, addr) {
        RecountKeeps(bucket, s, s.heap[addr].cb, s.strong[s.heap[addr].cb] + 1);
      }
    case Drop(t, addr) => DropKeeps(bucket, s, t, addr);
  }

  lemma GetKeeps(bucket: string -> nat, s: State, t: nat, name: string)
    requires Inv(bucket, s) && t < |s.threads| && s.threads[t] == Idle
    ensures Inv(bucket, Put(s, t, Fast(name)))
  {
    PcKeeps(bucket, s, t, Fast(name));
  }

  lemma {:induction false} RunKeeps(bucket: string -> nat, acts: seq<Action>)
    ensures Inv(bucket, Run(bucket, acts))
  {
    hide Next;
    if acts != [] {
      RunKeeps(bucket, acts[..|acts| - 1]);
      NextKeeps(bucket, Run(bucket, acts[..|acts| - 1]), acts[|acts| - 1]);
    }
  }

  // ----- what holds of every run -----

  /** Every key's address is that of a string still in memory, so looking a name up reads no deleted string. */
  lemma NoDanglingKey(bucket: string -> nat, acts: seq<Action>, k: Key)
    requires k in Run(bucket, acts).keys
    ensures k.addr in Run(bucket, acts).heap && Run(bucket, acts).heap[k.addr].cb == k.cb
  {
    hide Run;
    RunKeeps(bucket, acts);
  }

  lemma LiveIsKnown(bucket: string -> nat, s: State, a: nat)
    requires Inv(bucket, s) && Live(s, a)
    ensures Key(a, s.heap[a].cb) in s.keys
         || exists t :: 0 <= t < |s.threads| && s.threads[t] == SlowInsert(s.heap[a].name, Key(a, s.heap[a].cb))
  {
    assert Kept(s, a);
    if Key(a, s.heap[a].cb) !in s.keys {
      var t :| 0 <= t < |s.threads| && Inserting(s.threads[t], a);
      assert ThreadOk(s, s.threads[t]);
    }
  }

  /** At most one live string has a name. */
  lemma OneLiveStringPerName(bucket: string -> nat, acts: seq<Action>, a: nat, b: nat)
    requires Live(Run(bucket, acts), a) && Live(Run(bucket, acts), b)
    requires Run(bucket, acts).heap[a].name == Run(bucket, acts).heap[b].name
    ensures a == b
  {
    hide Run;
    RunKeeps(bucket, acts);
    var s := Run(bucket, acts);
    var k, m := Key(a, s.heap[a].cb), Key(b, s.heap[b].cb);
    LiveIsKnown(bucket, s, a);
    LiveIsKnown(bucket, s, b);
    assert Named(s, k, s.heap[a].name) == (k in s.keys) && Named(s, m, s.heap[b].name) == (m in s.keys);
    if k !in s.keys {
      var t :| 0 <= t < |s.threads| && s.threads[t] == SlowInsert(s.heap[a].name, k);
      assert ThreadOk(s, s.threads[t]);
      if m !in s.keys {
        var u :| 0 <= u < |s.threads| && s.threads[u] == SlowInsert(s.heap[b].name, m);
        if t != u {
          NoOneElseThere(bucket, s, t, u);
        }
      }
    }
  }

  /** While a reference that get(name) returned is held, its string is the name and the set has it. */
  lemma ReturnedIsTheName(bucket: string -> nat, acts: seq<Action>, i: nat)
    requires i < |Run(bucket, acts).returned|
    ensures var s := Run(bucket, acts); var r := s.returned[i];
      Counted(s, r.key.cb) ==>
        r.key in s.keys && r.key.addr in s.heap && s.heap[r.key.addr] == Obj(r.name, r.key.cb)
  {
    hide Run;
    RunKeeps(bucket, acts);
    assert ReturnOk(Run(bucket, acts), Run(bucket, acts).returned[i]);
  }

  /** Two calls for one name whose references are both still held returned the same pointer. */
  lemma CallersShareThePointer(bucket: string -> nat, acts: seq<Action>, i: nat, j: nat)
    requires var s := Run(bucket, acts);
      && i < |s.returned| && j < |s.returned| && s.returned[i].name == s.returned[j].name
      && Counted(s, s.returned[i].key.cb) && Counted(s, s.returned[j].key.cb)
    ensures Run(bucket, acts).returned[i].key == Run(bucket, acts).returned[j].key
  {
    hide Run;
    RunKeeps(bucket, acts);
    ReturnedIsTheName(bucket, acts, i);
    ReturnedIsTheName(bucket, acts, j);
  }

  /** The assertion in clean() never fires: a key it is about to erase has no reference left. */
  lemma CleanErasesOnlyExpired(bucket: string -> nat, acts: seq<Action>, t: nat)
    requires t < |Run(bucket, acts).threads| && Run(bucket, acts).threads[t].CleanCompare?
    requires Run(bucket, acts).threads[t].key.addr == Run(bucket, acts).threads[t].addr
    ensures !Counted(Run(bucket, acts), Run(bucket, acts).threads[t].key.cb)
  {
    hide Run;
    RunKeeps(bucket, acts);
    assert ThreadOk(Run(bucket, acts), Run(bucket, acts).threads[t]);
  }

  /** Once no reference is held and every call and deleter has finished, nothing is left. */
  lemma NothingLeaks(bucket: string -> nat, acts: seq<Action>)
    requires var s := Run(bucket, acts);
      && (forall t :: 0 <= t < |s.threads| ==> s.threads[t] == Idle)
      && (forall c :: 0 <= c < |s.strong| ==> s.strong[c] == 0)
    ensures Run(bucket, acts).keys == {} && Run(bucket, acts).heap == map[]
  {
    hide Run;
    RunKeeps(bucket, acts);
    var s := Run(bucket, acts);
    assert s.heap.Keys == {};
    assert s.keys == {};
  }
}
