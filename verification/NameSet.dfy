/**
  The set that interns stat names, as a step machine: it holds weak references only, each
  keyed by the raw address of its string, and a string's deleter takes the key out in a
  race with lookups of the same name.  Addresses are reused after delete.

  A reference count is one atomic word; a bucket's lock admits many shared holders or one
  exclusive holder.
 */
module NameSet {
  /** A heap string with the control block of its shared_ptr; control blocks are numbered in order of creation. */
  datatype Obj = Obj(name: string, cb: nat)

  /** A weak_ptr in the set: the address it was made from, and the control block it keeps. */
  datatype Key = Key(addr: nat, cb: nat)

  datatype Pc =
    | Idle
    | Fast(name: string)                   // getFast() waits for the shared lock
    | FastFind(name: string)
    | FastLock(name: string, key: Key)     // found, about to call weak.lock()
    | Slow(name: string)                   // getSlow() waits for the exclusive lock
    | SlowFind(name: string)
    | SlowLock(name: string, key: Key)
    | SlowErase(name: string, key: Key)
    | SlowNew(name: string)
    | SlowInsert(name: string, key: Key)   // holds the only reference to a new string
    | Clean(name: string, addr: nat)       // the deleter's clean() waits for the exclusive lock
    | CleanFind(name: string, addr: nat)
    | CleanCompare(name: string, addr: nat, key: Key)
    | Delete(addr: nat)                    // clean() has returned

  /** A reference that a thread's get(name) returned. */
  datatype Return = Return(thread: nat, name: string, key: Key)

  datatype State = State(
    heap: map<nat, Obj>,
    strong: seq<nat>,           // reference counts, by control block
    keys: set<Key>,
    threads: seq<Pc>,
    returned: seq<Return>)

  const INIT := State(map[], [], {}, [], [])

  datatype Action =
    | Spawn
    | Get(t: nat, name: string)
    | Acquire(t: nat)
    | Find(t: nat, key: Key)
    | Miss(t: nat)
    | Step(t: nat, addr: nat)              // addr: where the allocator puts a new string
    | Copy(addr: nat)                      // a client copies, or drops, a reference it holds
    | Drop(t: nat, addr: nat)

  predicate Shared(pc: Pc) { pc.FastFind? || pc.FastLock? }

  predicate Exclusive(pc: Pc) {
    pc.SlowFind? || pc.SlowLock? || pc.SlowErase? || pc.SlowNew? || pc.SlowInsert? || pc.CleanFind? || pc.CleanCompare?
  }

  predicate Deletes(pc: Pc, addr: nat) {
    (pc.Clean? || pc.CleanFind? || pc.CleanCompare? || pc.Delete?) && pc.addr == addr
  }

  /** The bucket's lock can be taken: shared while no one writes, exclusive while no one is in. */
  predicate Available(bucket: string -> nat, s: State, name: string, exclusive: bool) {
    forall u :: 0 <= u < |s.threads| ==>
      var pc := s.threads[u];
      Exclusive(pc) || (exclusive && Shared(pc)) ==> bucket(pc.name) != bucket(name)
  }

  /** A key equals a name when the string at its address does. */
  predicate Named(s: State, k: Key, name: string) {
    k in s.keys && k.addr in s.heap && s.heap[k.addr].name == name
  }

  predicate Absent(s: State, name: string) {
    forall k :: k in s.keys ==> !Named(s, k, name)
  }

  predicate Counted(s: State, cb: nat) { cb < |s.strong| && s.strong[cb] > 0 }

  /** A live string. */
  predicate Live(s: State, addr: nat) {
    addr in s.heap && Counted(s, s.heap[addr].cb)
  }

  /** A reference to it is out: get() is not about to return the only one. */
  predicate Handed(s: State, addr: nat) {
    Live(s, addr) && forall u :: 0 <= u < |s.threads| ==> s.threads[u].SlowInsert? ==> s.threads[u].key.addr != addr
  }

  function Put(s: State, t: nat, pc: Pc): State
    requires t < |s.threads|
  {
    s.(threads := s.threads[t := pc])
  }

  function Count(s: State, cb: nat, n: nat): State
    requires cb < |s.strong|
  {
    s.(strong := s.strong[cb := n])
  }

  /** get() returns, releasing its lock. */
  function Returns(s: State, t: nat, name: string, key: Key): State
    requires t < |s.threads|
  {
    Put(s, t, Idle).(returned := s.returned + [Return(t, name, key)])
  }

  /** weak.lock(): a new reference unless the count has reached zero. */
  function Lock(s: State, t: nat, name: string, key: Key, otherwise: Pc): State
    requires t < |s.threads|
  {
    if Counted(s, key.cb) then Returns(Count(s, key.cb, s.strong[key.cb] + 1), t, name, key)
    else Put(s, t, otherwise)
  }

  function NextStep(s: State, t: nat, addr: nat): State
    requires t < |s.threads|
  {
    var pc := s.threads[t];
    match pc
    case FastLock(name, key) => Lock(s, t, name, key, Slow(name))
    case SlowLock(name, key) => Lock(s, t, name, key, SlowErase(name, key))
    case SlowErase(name, key) => Put(s, t, SlowNew(name)).(keys := s.keys - {key})
    case SlowNew(name) =>
      if addr in s.heap then s
      else Put(s, t, SlowInsert(name, Key(addr, |s.strong|))).(
             heap := s.heap[addr := Obj(name, |s.strong|)], strong := s.strong + [1])
    case SlowInsert(name, key) =>
      Returns(s, t, name, key).(keys := if Absent(s, name) then s.keys + {key} else s.keys)
    case CleanCompare(name, mine, key) =>
      Put(s, t, Delete(mine)).(keys := if key.addr == mine then s.keys - {key} else s.keys)
    case Delete(mine) => Put(s, t, Idle).(heap := s.heap - {mine})
    case _ => s
  }

  function Found(pc: Pc, key: Key): Pc {
    match pc
    case FastFind(name) => FastLock(name, key)
    case SlowFind(name) => SlowLock(name, key)
    case CleanFind(name, addr) => CleanCompare(name, addr, key)
    case _ => pc
  }

  function Missed(pc: Pc): Pc {
    match pc
    case FastFind(name) => Slow(name)
    case SlowFind(name) => SlowNew(name)
    case CleanFind(name, addr) => Delete(addr)
    case _ => pc
  }

  predicate Finding(pc: Pc) { pc.FastFind? || pc.SlowFind? || pc.CleanFind? }

  predicate Waiting(pc: Pc) { pc.Fast? || pc.Slow? || pc.Clean? }

  function Locked(pc: Pc): Pc {
    match pc
    case Fast(name) => FastFind(name)
    case Slow(name) => SlowFind(name)
    case Clean(name, addr) => CleanFind(name, addr)
    case _ => pc
  }

  /** The last reference's drop runs the deleter in the same thread. */
  function Dropped(s: State, t: nat, addr: nat): State
    requires t < |s.threads| && Live(s, addr)
  {
    var o := s.heap[addr];
    var s1 := Count(s, o.cb, s.strong[o.cb] - 1);
    if s.strong[o.cb] == 1 then Put(s1, t, Clean(o.name, addr)) else s1
  }

  /** One step; an action that is not enabled changes nothing. */
  function Next(bucket: string -> nat, s: State, a: Action): State {
    match a
    case Spawn => s.(threads := s.threads + [Idle])
    case Get(t, name) => if t < |s.threads| && s.threads[t] == Idle then Put(s, t, Fast(name)) else s
    case Acquire(t) =>
      if t < |s.threads| && Waiting(s.threads[t])
         && Available(bucket, s, s.threads[t].name, !s.threads[t].Fast?)
      then Put(s, t, Locked(s.threads[t])) else s
    case Find(t, key) =>
      if t < |s.threads| && Finding(s.threads[t]) && Named(s, key, s.threads[t].name)
      then Put(s, t, Found(s.threads[t], key)) else s
    case Miss(t) =>
      if t < |s.threads| && Finding(s.threads[t]) && Absent(s, s.threads[t].name)
      then Put(s, t, Missed(s.threads[t])) else s
    case Step(t, addr) => if t < |s.threads| then NextStep(s, t, addr) else s
    case Copy(addr) => if Handed(s, addr) then Count(s, s.heap[addr].cb, s.strong[s.heap[addr].cb] + 1) else s
    case Drop(t, addr) =>
      if t < |s.threads| && s.threads[t] == Idle && Handed(s, addr) then Dropped(s, t, addr) else s
  }

  function Run(bucket: string -> nat, acts: seq<Action>): State {
    if acts == [] then INIT else Next(bucket, Run(bucket, acts[..|acts| - 1]), acts[|acts| - 1])
  }

  // ----- the invariant -----

  /** Every key is to a string that is still there, with that string's own control block. */
  ghost predicate KeysOk(s: State) {
    && (forall k :: k in s.keys ==> k.addr in s.heap && s.heap[k.addr].cb == k.cb)
    && (forall k, m :: k in s.keys && m in s.keys && s.heap[k.addr].name == s.heap[m.addr].name ==> k == m)
  }

  ghost predicate HeapOk(s: State) {
    && (forall a :: a in s.heap ==> s.heap[a].cb < |s.strong|)
    && (forall a, b :: a in s.heap && b in s.heap && s.heap[a].cb == s.heap[b].cb ==> a == b)
  }

  predicate Inserting(pc: Pc, addr: nat) { pc.SlowInsert? && pc.key.addr == addr }

  /** A live string is in the set or about to be put there; an expired one has its deleter running. */
  ghost predicate Kept(s: State, a: nat)
    requires a in s.heap
  {
    if Live(s, a)
    then Key(a, s.heap[a].cb) in s.keys || exists t :: 0 <= t < |s.threads| && Inserting(s.threads[t], a)
    else exists t :: 0 <= t < |s.threads| && Deletes(s.threads[t], a)
  }

  /** What a thread knows where it stands. */
  predicate ThreadOk(s: State, pc: Pc) {
    match pc
    case FastLock(name, key) => Named(s, key, name)
    case SlowLock(name, key) => Named(s, key, name)
    case SlowErase(name, key) => Named(s, key, name) && !Counted(s, key.cb)
    case SlowNew(name) => Absent(s, name)
    case SlowInsert(name, key) =>
      Absent(s, name) && key.addr in s.heap && s.heap[key.addr] == Obj(name, key.cb) && Counted(s, key.cb)
    case Clean(name, a) => a in s.heap && s.heap[a].name == name && !Live(s, a)
    case CleanFind(name, a) => a in s.heap && s.heap[a].name == name && !Live(s, a)
    case CleanCompare(name, a, key) => a in s.heap && s.heap[a].name == name && !Live(s, a) && Named(s, key, name)
    case Delete(a) => a in s.heap && !Live(s, a) && forall k :: k in s.keys ==> k.addr != a
    case _ => true
  }

  /** Two threads are never in one bucket's lock with one of them writing, nor do they delete one string. */
  ghost predicate Apart(bucket: string -> nat, p: Pc, q: Pc) {
    && (Exclusive(p) && (Exclusive(q) || Shared(q)) ==> bucket(p.name) != bucket(q.name))
    && (forall a: nat :: Deletes(p, a) ==> !Deletes(q, a))
  }

  /** What get() returned is, while it lives, the set's own string of that name. */
  predicate ReturnOk(s: State, r: Return) {
    r.key.cb < |s.strong| &&
    (Counted(s, r.key.cb) ==> r.key in s.keys && r.key.addr in s.heap && s.heap[r.key.addr] == Obj(r.name, r.key.cb))
  }

  ghost predicate StringsOk(s: State) {
    forall a :: a in s.heap ==> Kept(s, a)
  }

  predicate ThreadsOk(s: State) {
    forall t :: 0 <= t < |s.threads| ==> ThreadOk(s, s.threads[t])
  }

  ghost predicate AllApart(bucket: string -> nat, s: State) {
    forall t, u :: 0 <= t < |s.threads| && 0 <= u < |s.threads| && t != u ==> Apart(bucket, s.threads[t], s.threads[u])
  }

  predicate ReturnsOk(s: State) {
    forall i :: 0 <= i < |s.returned| ==> ReturnOk(s, s.returned[i])
  }

  ghost predicate Inv(bucket: string -> nat, s: State) {
    KeysOk(s) && HeapOk(s) && StringsOk(s) && ThreadsOk(s) && AllApart(bucket, s) && ReturnsOk(s)
  }
}
