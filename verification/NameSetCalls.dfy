/**
  The calls behind the runs of `NameSet`: what get() returns answers the name it was called
  with, reference counts are the references out, and a call, or the drop of a last
  reference, left to run by itself completes.
 */
module NameSetCalls {
  import opened NameSet
  import opened NameSetProof

  /** In a call of get(name). */
  predicate InGet(pc: Pc, name: string) {
    && (pc.Fast? || pc.FastFind? || pc.FastLock? || pc.Slow? || pc.SlowFind? || pc.SlowLock? || pc.SlowErase?
        || pc.SlowNew? || pc.SlowInsert?)
    && pc.name == name
  }

  predicate GetsAt(s: State, t: nat, name: string) {
    t < |s.threads| && InGet(s.threads[t], name)
  }

  /** A call of get(name) begins with that action and in no other way. */
  lemma GetBegins(bucket: string -> nat, s: State, a: Action, t: nat, name: string)
    requires GetsAt(Next(bucket, s, a), t, name)
    ensures GetsAt(s, t, name) || (a == Get(t, name) && t < |s.threads| && s.threads[t] == Idle)
  {
    hide Absent, Available, Named, Handed, Lock, NextStep;
    if a.Step? && a.t < |s.threads| {
      StepStays(s, a.t, a.addr, t, name);
    }
  }

  lemma StepStays(s: State, t: nat, addr: nat, u: nat, name: string)
    requires t < |s.threads| && GetsAt(NextStep(s, t, addr), u, name)
    ensures GetsAt(s, u, name)
  {
    hide Absent, Counted;
  }

  /** It ends by returning a reference for that name, and in no other way; nothing else returns one. */
  lemma GetEnds(bucket: string -> nat, s: State, a: Action, t: nat, name: string)
    requires GetsAt(s, t, name)
    ensures var s' := Next(bucket, s, a);
      GetsAt(s', t, name)
      || (t < |s'.threads| && s'.threads[t] == Idle
          && exists key :: s'.returned == s.returned + [Return(t, name, key)])
  {
    hide Absent;
    if a.Step? && a.t == t {
      var pc := s.threads[t];
      if !GetsAt(Next(bucket, s, a), t, name) {
        assert Next(bucket, s, a).returned == s.returned + [Return(t, name, pc.key)];
      }
    }
  }

  lemma ReturnsFromGet(bucket: string -> nat, s: State, a: Action)
    requires Next(bucket, s, a).returned != s.returned
    ensures var s' := Next(bucket, s, a);
      && |s'.returned| == |s.returned| + 1 && s'.returned[..|s.returned|] == s.returned
      && var r := s'.returned[|s.returned|];
         GetsAt(s, r.thread, r.name) && a.Step? && a.t == r.thread && s'.threads[r.thread] == Idle
  {
    hide Absent;
  }

  /** The action that began the call a thread is in. */
  lemma {:induction false} CallOf(bucket: string -> nat, acts: seq<Action>, t: nat, name: string) returns (k: nat)
    requires GetsAt(Run(bucket, acts), t, name)
    ensures k < |acts| && acts[k] == Get(t, name)
    ensures t < |Run(bucket, acts[..k]).threads| && Run(bucket, acts[..k]).threads[t] == Idle
    ensures forall j :: k < j <= |acts| ==> GetsAt(Run(bucket, acts[..j]), t, name)
  {
    hide Next, GetsAt;
    NoThreadAtFirst(t, name);
    var n := |acts| - 1;
    assert acts[..|acts|] == acts;
    GetBegins(bucket, Run(bucket, acts[..n]), acts[n], t, name);
    if GetsAt(Run(bucket, acts[..n]), t, name) {
      k := CallOf(bucket, acts[..n], t, name);
      assert acts[..n][..k] == acts[..k];
      forall j | k < j <= |acts| ensures GetsAt(Run(bucket, acts[..j]), t, name) {
        assert j <= n ==> acts[..n][..j] == acts[..j];
      }
    } else {
      k := n;
    }
  }

  lemma NoThreadAtFirst(t: nat, name: string)
    ensures !GetsAt(INIT, t, name)
  {}

  /**
    Every reference that was ever returned answers a call: the run has the action that
    called get() with that name, the thread idle before it and in that one call from then on
    until the step that returned.
   */
  lemma {:induction false} ReturnAnswersItsCall(bucket: string -> nat, acts: seq<Action>, i: nat)
    returns (k: nat, m: nat)
    requires i < |Run(bucket, acts).returned|
    ensures k < m < |acts|
    ensures var r := Run(bucket, acts).returned[i];
      && acts[k] == Get(r.thread, r.name)
      && r.thread < |Run(bucket, acts[..k]).threads| && Run(bucket, acts[..k]).threads[r.thread] == Idle
      && forall j :: k < j <= m ==> GetsAt(Run(bucket, acts[..j]), r.thread, r.name)
    ensures |Run(bucket, acts[..m]).returned| == i && |Run(bucket, acts[..m + 1]).returned| == i + 1
  {
    hide Next, GetsAt;
    var n := |acts| - 1;
    var s := Run(bucket, acts[..n]);
    assert acts[..|acts|] == acts;
    if Run(bucket, acts).returned != s.returned {
      ReturnsFromGet(bucket, s, acts[n]);
    }
    if i < |s.returned| {
      k, m := ReturnAnswersItsCall(bucket, acts[..n], i);
      forall j | 0 <= j <= n ensures acts[..n][..j] == acts[..j] {}
    } else {
      var r := Run(bucket, acts).returned[i];
      m := n;
      k := CallOf(bucket, acts[..n], r.thread, r.name);
      forall j | 0 <= j <= n ensures acts[..n][..j] == acts[..j] {}
    }
  }

  /** So a held result of get() is the string of that very name, and the set's own. */
  lemma HeldIsTheNameAskedFor(bucket: string -> nat, acts: seq<Action>, i: nat) returns (k: nat)
    requires i < |Run(bucket, acts).returned| && Counted(Run(bucket, acts), Run(bucket, acts).returned[i].key.cb)
    ensures k < |acts| && acts[k].Get? && acts[k].t == Run(bucket, acts).returned[i].thread
    ensures var s := Run(bucket, acts);
      var key := s.returned[i].key;
      key in s.keys && key.addr in s.heap && s.heap[key.addr].name == acts[k].name
  {
    hide Run;
    var m: nat;
    k, m := ReturnAnswersItsCall(bucket, acts, i);
    ReturnedIsTheName(bucket, acts, i);
  }

  // ----- the references out -----

  /** A thread has made a string and has yet to return the reference to it. */
  predicate Making(pc: Pc, cb: nat) { pc.SlowInsert? && pc.key.cb == cb }

  predicate InFlight(s: State, cb: nat) {
    exists t :: 0 <= t < |s.threads| && Making(s.threads[t], cb)
  }

  function One(b: bool): int { if b then 1 else 0 }

  /**
    How many references of a string an action gives to clients: get() returns one and a copy
    makes one, and a drop takes one back.
   */
  function HandedOut(bucket: string -> nat, s: State, a: Action, cb: nat): int {
    match a
    case Step(_, _) =>
      var s' := Next(bucket, s, a);
      One(|s'.returned| == |s.returned| + 1 && s'.returned[|s.returned|].key.cb == cb)
    case Copy(addr) => One(Handed(s, addr) && s.heap[addr].cb == cb)
    case Drop(t, addr) =>
      -One(t < |s.threads| && s.threads[t] == Idle && Handed(s, addr) && s.heap[addr].cb == cb)
    case _ => 0
  }

  /** The references of a string that clients hold after a run. */
  function Out(bucket: string -> nat, acts: seq<Action>, cb: nat): int {
    if acts == [] then 0
    else
      var before, a := acts[..|acts| - 1], acts[|acts| - 1];
      Out(bucket, before, cb) + HandedOut(bucket, Run(bucket, before), a, cb)
  }

  predicate Counts(bucket: string -> nat, s: State, a: Action, cb: nat) {
    var s' := Next(bucket, s, a);
    && |s'.strong| >= |s.strong|
    && (cb < |s.strong| ==>
          s'.strong[cb] - One(InFlight(s', cb)) == s.strong[cb] - One(InFlight(s, cb)) + HandedOut(bucket, s, a, cb))
    && (|s.strong| <= cb ==> HandedOut(bucket, s, a, cb) == 0)
    && (|s.strong| <= cb < |s'.strong| ==> s'.strong[cb] == One(InFlight(s', cb)))
  }

  /** A thread that makes no string before or after leaves what is being made as it was. */
  lemma SameInFlight(s: State, s': State, t: nat, cb: nat)
    requires t < |s.threads| && |s'.threads| == |s.threads| && s'.threads == s.threads[t := s'.threads[t]]
    requires Making(s.threads[t], cb) == Making(s'.threads[t], cb)
    ensures InFlight(s', cb) == InFlight(s, cb)
  {
    if u :| 0 <= u < |s.threads| && Making(s.threads[u], cb) {
      assert Making(s'.threads[u], cb);
    }
    if u :| 0 <= u < |s'.threads| && Making(s'.threads[u], cb) {
      assert Making(s.threads[u], cb);
    }
  }

  /** No two threads are making one string. */
  lemma MakesAlone(bucket: string -> nat, s: State, t: nat, u: nat, cb: nat)
    requires Inv(bucket, s) && t < |s.threads| && u < |s.threads| && t != u && Making(s.threads[t], cb)
    ensures !Making(s.threads[u], cb)
  {
    assert ThreadOk(s, s.threads[t]) && ThreadOk(s, s.threads[u]) && Apart(bucket, s.threads[t], s.threads[u]);
  }

  lemma InsertCounts(bucket: string -> nat, s: State, t: nat, addr: nat, cb: nat)
    requires Inv(bucket, s) && t < |s.threads| && s.threads[t].SlowInsert?
    ensures Counts(bucket, s, Step(t, addr), cb)
  {
    hide KeysOk, HeapOk, StringsOk, AllApart, ReturnsOk, Absent;
    var s' := Next(bucket, s, Step(t, addr));
    assert ThreadOk(s, s.threads[t]);
    if s.threads[t].key.cb == cb {
      assert Making(s.threads[t], cb);
      forall u | 0 <= u < |s'.threads| ensures !Making(s'.threads[u], cb) {
        if u != t {
          MakesAlone(bucket, s, t, u, cb);
        }
      }
    } else {
      SameInFlight(s, s', t, cb);
    }
  }

  lemma NewCounts(bucket: string -> nat, s: State, t: nat, addr: nat, cb: nat)
    requires Inv(bucket, s) && t < |s.threads| && s.threads[t].SlowNew?
    ensures Counts(bucket, s, Step(t, addr), cb)
  {
    hide KeysOk, HeapOk, StringsOk, AllApart, ReturnsOk, Absent;
    var s' := Next(bucket, s, Step(t, addr));
    if s' != s {
      if cb == |s.strong| {
        assert Making(s'.threads[t], cb);
      } else {
        SameInFlight(s, s', t, cb);
      }
    }
  }

  lemma OtherStepCounts(bucket: string -> nat, s: State, t: nat, addr: nat, cb: nat)
    requires Inv(bucket, s) && t < |s.threads| && !s.threads[t].SlowInsert? && !s.threads[t].SlowNew?
    ensures Counts(bucket, s, Step(t, addr), cb)
  {
    hide Inv, InFlight, Absent;
    var s' := Next(bucket, s, Step(t, addr));
    SameInFlight(s, s', t, cb);
  }

  lemma DropCounts(bucket: string -> nat, s: State, t: nat, addr: nat, cb: nat)
    ensures Counts(bucket, s, Drop(t, addr), cb)
  {
    hide InFlight, Handed;
    if t < |s.threads| && s.threads[t] == Idle && Handed(s, addr) {
      assert Live(s, addr) by { HandedLives(s, addr); }
      SameInFlight(s, Next(bucket, s, Drop(t, addr)), t, cb);
    }
  }

  lemma HandedLives(s: State, addr: nat)
    requires Handed(s, addr)
    ensures Live(s, addr)
  {}

  lemma WaitCounts(bucket: string -> nat, s: State, a: Action, cb: nat)
    requires a.Get? || a.Acquire? || a.Find? || a.Miss?
    ensures Counts(bucket, s, a, cb)
  {
    hide InFlight, Available, Absent, Named;
    if a.t < |s.threads| {
      SameInFlight(s, Next(bucket, s, a), a.t, cb);
    }
  }

  lemma SpawnCounts(bucket: string -> nat, s: State, cb: nat)
    ensures Counts(bucket, s, Spawn, cb)
  {
    var s' := Next(bucket, s, Spawn);
    if t :| 0 <= t < |s.threads| && Making(s.threads[t], cb) {
      assert Making(s'.threads[t], cb);
    }
  }

  lemma StepCounts(bucket: string -> nat, s: State, a: Action, cb: nat)
    requires Inv(bucket, s)
    ensures Counts(bucket, s, a, cb)
  {
    hide Inv, Counts, InFlight, Next;
    match a
    case Spawn => SpawnCounts(bucket, s, cb);
    case Step(t, addr) =>
      if t < |s.threads| {
        if s.threads[t].SlowInsert? {
          InsertCounts(bucket, s, t, addr, cb);
        } else if s.threads[t].SlowNew? {
          NewCounts(bucket, s, t, addr, cb);
        } else {
          OtherStepCounts(bucket, s, t, addr, cb);
        }
      } else {
        assert Counts(bucket, s, a, cb) by { NothingCounts(bucket, s, a, cb); }
      }
    case Copy(_) => CopyCounts(bucket, s, a, cb);
    case Drop(t, addr) => DropCounts(bucket, s, t, addr, cb);
    case _ => WaitCounts(bucket, s, a, cb);
  }

  lemma NothingCounts(bucket: string -> nat, s: State, a: Action, cb: nat)
    requires a.Step? && a.t >= |s.threads|
    ensures Counts(bucket, s, a, cb)
  {}

  lemma CopyCounts(bucket: string -> nat, s: State, a: Action, cb: nat)
    requires a.Copy?
    ensures Counts(bucket, s, a, cb)
  {
    hide InFlight;
    SameThreads(s, Next(bucket, s, a), cb);
  }

  lemma SameThreads(s: State, s': State, cb: nat)
    requires s'.threads == s.threads
    ensures InFlight(s', cb) == InFlight(s, cb)
  {}

  /**
    In every run a string's reference count is the references to it that clients hold, got
    or copied and not dropped, and the one that a get() which has just made it will return.
   */
  lemma {:induction false} CountIsTheReferencesOut(bucket: string -> nat, acts: seq<Action>, cb: nat)
    ensures var s := Run(bucket, acts);
      if cb < |s.strong| then s.strong[cb] == Out(bucket, acts, cb) + One(InFlight(s, cb))
      else Out(bucket, acts, cb) == 0
  {
    hide Inv, Next, InFlight, HandedOut;
    if acts != [] {
      var before, a := acts[..|acts| - 1], acts[|acts| - 1];
      CountIsTheReferencesOut(bucket, before, cb);
      RunKeeps(bucket, before);
      StepCounts(bucket, Run(bucket, before), a, cb);
    }
  }

  // ----- a call by itself -----

  lemma OneMore(bucket: string -> nat, acts: seq<Action>, a: Action)
    ensures Run(bucket, acts + [a]) == Next(bucket, Run(bucket, acts), a)
  {
    hide Next;
    assert (acts + [a])[..|acts|] == acts;
  }

  predicate OthersIdle(s: State, t: nat) {
    forall u :: 0 <= u < |s.threads| && u != t ==> s.threads[u] == Idle
  }

  /** Some address is free. */
  lemma FreeAddress(heap: map<nat, Obj>) returns (addr: nat)
    ensures addr !in heap
  {
    addr := 0;
    var left := heap.Keys;
    while left != {}
      invariant forall a :: a in heap && a !in left ==> a < addr
      decreases left
    {
      var a :| a in left;
      left := left - {a};
      if a >= addr {
        addr := a + 1;
      }
    }
  }

  /** With every other thread at rest, what is in the set is live. */
  lemma KeysLive(bucket: string -> nat, s: State, t: nat, key: Key)
    requires Inv(bucket, s) && OthersIdle(s, t) && key in s.keys
    requires t < |s.threads| ==> forall a: nat :: !Deletes(s.threads[t], a)
    ensures Counted(s, key.cb)
  {
    assert Kept(s, key.addr);
  }

  /** What get() did when it was alone: found the set's own live string, or added a new one. */
  predicate Got(s: State, s': State, t: nat, name: string) {
    && |s'.returned| == |s.returned| + 1
    && var r := s'.returned[|s.returned|];
       && s'.returned == s.returned + [r] && r.thread == t && r.name == name
       && s'.threads == s.threads && r.key.cb < |s'.strong|
       && if Absent(s, name) then
            && r.key.addr !in s.heap && r.key.cb == |s.strong| && s'.strong == s.strong + [1]
            && s'.keys == s.keys + {r.key} && s'.heap == s.heap[r.key.addr := Obj(name, r.key.cb)]
          else
            && Named(s, r.key, name) && r.key.cb < |s.strong|
            && s' == s.(strong := s.strong[r.key.cb := s.strong[r.key.cb] + 1], returned := s'.returned)
  }

  predicate Stands(s: State, t: nat, pc: Pc) {
    OthersIdle(s, t) && t < |s.threads| && s.threads[t] == pc
  }

  lemma PutTwice(s: State, t: nat, pc: Pc, last: Pc)
    requires t < |s.threads|
    ensures Put(Put(s, t, pc), t, last) == Put(s, t, last)
  {
    assert s.threads[t := pc][t := last] == s.threads[t := last];
  }

  /** Before it searches, under the shared lock first and under the exclusive one then. */
  lemma FastSearch(bucket: string -> nat, s: State, t: nat, name: string)
    requires Stands(s, t, Idle)
    ensures Next(bucket, Next(bucket, s, Get(t, name)), Acquire(t)) == Put(s, t, FastFind(name))
  {
    PutTwice(s, t, Fast(name), FastFind(name));
  }

  lemma SlowSearch(bucket: string -> nat, s: State, t: nat, name: string)
    requires Stands(s, t, Idle) && Absent(s, name)
    ensures Next(bucket, Next(bucket, Put(s, t, FastFind(name)), Miss(t)), Acquire(t)) == Put(s, t, SlowFind(name))
  {
    PutTwice(s, t, FastFind(name), Slow(name));
    PutTwice(s, t, Slow(name), SlowFind(name));
  }

  lemma HitReturns(bucket: string -> nat, s: State, t: nat, name: string, key: Key, addr: nat)
    requires Stands(s, t, Idle) && Named(s, key, name) && Counted(s, key.cb)
    ensures Got(s, Next(bucket, Next(bucket, Put(s, t, FastFind(name)), Find(t, key)), Step(t, addr)), t, name)
  {
    PutTwice(s, t, FastFind(name), FastLock(name, key));
    PutTwice(s, t, FastLock(name, key), Idle);
    var s2 := Put(s, t, FastLock(name, key));
    assert Next(bucket, Put(s, t, FastFind(name)), Find(t, key)) == s2;
    assert s.threads[t := Idle] == s.threads;
  }

  lemma MissReturns(bucket: string -> nat, s: State, t: nat, name: string, addr: nat)
    requires Stands(s, t, Idle) && Absent(s, name) && addr !in s.heap && KeysOk(s)
    ensures var s1 := Next(bucket, Put(s, t, SlowFind(name)), Miss(t));
      Got(s, Next(bucket, Next(bucket, s1, Step(t, addr)), Step(t, addr)), t, name)
  {
    var key := Key(addr, |s.strong|);
    PutTwice(s, t, SlowFind(name), SlowNew(name));
    assert Next(bucket, Put(s, t, SlowFind(name)), Miss(t)) == Put(s, t, SlowNew(name));
    PutTwice(s, t, SlowNew(name), SlowInsert(name, key));
    var s3 := Put(s, t, SlowInsert(name, key)).(
      heap := s.heap[addr := Obj(name, |s.strong|)], strong := s.strong + [1]);
    assert Next(bucket, Put(s, t, SlowNew(name)), Step(t, addr)) == s3;
    assert Absent(s3, name);
    PutTwice(s, t, SlowInsert(name, key), Idle);
    assert s.threads[t := Idle] == s.threads;
  }

  /**
    get(), from any state of a run in which all threads are idle: by itself it returns in
    at most seven steps, with the set's own string of that name if there is one, and with a new one
    that it adds if there is none.
   */
  lemma GetReturns(bucket: string -> nat, acts: seq<Action>, t: nat, name: string) returns (more: seq<Action>)
    requires Stands(Run(bucket, acts), t, Idle)
    ensures 0 < |more| <= 7 && more[0] == Get(t, name)
    ensures Got(Run(bucket, acts), Run(bucket, acts + more), t, name)
  {
    hide Run, Next, Inv, Got, Stands, Absent;
    var s := Run(bucket, acts);
    RunKeeps(bucket, acts);
    var now := acts + [Get(t, name), Acquire(t)];
    TwoMore(bucket, acts, Get(t, name), Acquire(t));
    FastSearch(bucket, s, t, name);
    if Absent(s, name) {
      var addr := FreeAddress(s.heap);
      TwoMore(bucket, now, Miss(t), Acquire(t));
      SlowSearch(bucket, s, t, name);
      var slow := now + [Miss(t), Acquire(t)];
      OneMore(bucket, slow, Miss(t));
      TwoMore(bucket, slow + [Miss(t)], Step(t, addr), Step(t, addr));
      SetOk(bucket, s);
      MissReturns(bucket, s, t, name, addr);
      more := [Get(t, name), Acquire(t), Miss(t), Acquire(t), Miss(t), Step(t, addr), Step(t, addr)];
      assert acts + more == slow + [Miss(t)] + [Step(t, addr), Step(t, addr)];
    } else {
      var key := Present(s, name);
      TwoMore(bucket, now, Find(t, key), Step(t, 0));
      IdleKeysLive(bucket, s, t, key);
      HitReturns(bucket, s, t, name, key, 0);
      more := [Get(t, name), Acquire(t), Find(t, key), Step(t, 0)];
      assert acts + more == now + [Find(t, key), Step(t, 0)];
    }
  }

  lemma TwoMore(bucket: string -> nat, acts: seq<Action>, a: Action, b: Action)
    ensures Run(bucket, acts + [a, b]) == Next(bucket, Next(bucket, Run(bucket, acts), a), b)
  {
    hide Run, Next;
    OneMore(bucket, acts, a);
    OneMore(bucket, acts + [a], b);
    assert acts + [a, b] == acts + [a] + [b];
  }

  lemma Present(s: State, name: string) returns (key: Key)
    requires !Absent(s, name)
    ensures Named(s, key, name)
  {
    key :| key in s.keys && Named(s, key, name);
  }

  lemma SetOk(bucket: string -> nat, s: State)
    requires Inv(bucket, s)
    ensures KeysOk(s)
  {}

  lemma IdleKeysLive(bucket: string -> nat, s: State, t: nat, key: Key)
    requires Inv(bucket, s) && Stands(s, t, Idle) && key in s.keys
    ensures Counted(s, key.cb)
  {
    KeysLive(bucket, s, t, key);
  }

  // ----- the last reference -----

  /** The last reference goes, and the deleter takes the lock. */
  lemma DropBegins(bucket: string -> nat, s: State, t: nat, key: Key)
    requires Inv(bucket, s) && Stands(s, t, Idle) && key in s.keys && key.cb < |s.strong| && s.strong[key.cb] == 1
    ensures key.addr in s.heap
    ensures Next(bucket, Next(bucket, s, Drop(t, key.addr)), Acquire(t))
         == Put(s.(strong := s.strong[key.cb := 0]), t, CleanFind(s.heap[key.addr].name, key.addr))
  {
    hide Apart, Kept, ReturnsOk;
    var o := s.heap[key.addr];
    var s0 := s.(strong := s.strong[key.cb := 0]);
    assert Next(bucket, s, Drop(t, key.addr)) == Put(s0, t, Clean(o.name, key.addr));
    PutTwice(s0, t, Clean(o.name, key.addr), CleanFind(o.name, key.addr));
  }

  /** It finds the key by name and address, takes it out, and the string is deleted. */
  lemma DropEnds(bucket: string -> nat, s0: State, t: nat, key: Key, name: string)
    requires Stands(s0, t, Idle) && key in s0.keys && Named(s0, key, name)
    ensures var s1 := Next(bucket, Put(s0, t, CleanFind(name, key.addr)), Find(t, key));
      Next(bucket, Next(bucket, s1, Step(t, 0)), Step(t, 0))
        == s0.(heap := s0.heap - {key.addr}, keys := s0.keys - {key})
  {
    assert s0.threads[t := Idle] == s0.threads;
    PutTwice(s0, t, CleanFind(name, key.addr), CleanCompare(name, key.addr, key));
    PutTwice(s0, t, CleanCompare(name, key.addr, key), Delete(key.addr));
    PutTwice(s0, t, Delete(key.addr), Idle);
    var s2 := Put(s0, t, CleanCompare(name, key.addr, key));
    assert Next(bucket, Put(s0, t, CleanFind(name, key.addr)), Find(t, key)) == s2;
    assert Next(bucket, s2, Step(t, 0)) == Put(s0, t, Delete(key.addr)).(keys := s0.keys - {key});
  }

  lemma DropSteps(bucket: string -> nat, s: State, t: nat, key: Key)
    requires Inv(bucket, s) && Stands(s, t, Idle) && key in s.keys && key.cb < |s.strong| && s.strong[key.cb] == 1
    ensures var s1 := Next(bucket, Next(bucket, s, Drop(t, key.addr)), Acquire(t));
      var s2 := Next(bucket, Next(bucket, Next(bucket, s1, Find(t, key)), Step(t, 0)), Step(t, 0));
      s2 == s.(heap := s.heap - {key.addr}, strong := s.strong[key.cb := 0], keys := s.keys - {key})
  {
    hide Inv, Next;
    DropBegins(bucket, s, t, key);
    DropEnds(bucket, s.(strong := s.strong[key.cb := 0]), t, key, s.heap[key.addr].name);
  }

  /** And so in any run, by itself, in five steps: string and key are gone, and all else is as it was. */
  lemma LastDropDeletes(bucket: string -> nat, acts: seq<Action>, t: nat, key: Key) returns (more: seq<Action>)
    requires Stands(Run(bucket, acts), t, Idle) && key in Run(bucket, acts).keys
    requires key.cb < |Run(bucket, acts).strong| && Run(bucket, acts).strong[key.cb] == 1
    ensures |more| == 5 && more[0] == Drop(t, key.addr)
    ensures var s, s' := Run(bucket, acts), Run(bucket, acts + more);
      s' == s.(heap := s.heap - {key.addr}, strong := s.strong[key.cb := 0], keys := s.keys - {key})
  {
    hide Run, Next, Inv, Stands;
    var s := Run(bucket, acts);
    RunKeeps(bucket, acts);
    var a, b, c, d := Drop(t, key.addr), Acquire(t), Find(t, key), Step(t, 0);
    TwoMore(bucket, acts, a, b);
    OneMore(bucket, acts + [a, b], c);
    TwoMore(bucket, acts + [a, b] + [c], d, d);
    DropSteps(bucket, s, t, key);
    more := [a, b, c, d, d];
    assert acts + more == acts + [a, b] + [c] + [d, d];
  }
}
