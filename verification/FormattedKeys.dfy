/**
  Formatted stat keys, as a step machine over any number of threads: a last-found item and a
  map in each thread, both of pointers into one global map behind a lock.

  A shared-lock section is one step; the upgrade lock admits one holder.  What a thread does
  to its own maps alone is one step.
 */
module FormattedKeys {
  import opened Decimals

  datatype Subkey = Int(i: int) | Str(s: string)

  type SubkeyArray = seq<Subkey>

  function Xor(x: bv64, y: bv64): bv64 { x ^ y }

  /** SubkeyArrayHash: the subkeys' hashes, xor-ed together. */
  function Hash(h: Subkey -> bv64, a: SubkeyArray): bv64 {
    if a == [] then 0 else Xor(Hash(h, a[..|a| - 1]), h(a[|a| - 1]))
  }

  function Text(k: Subkey): string {
    match k case Int(i) => IntText(i) case Str(s) => s
  }

  /** formatKey(): integers in decimal, then the format applied to the strings. */
  function Texts(a: SubkeyArray): seq<string> {
    if a == [] then [] else Texts(a[..|a| - 1]) + [Text(a[|a| - 1])]
  }

  function FormatKey(format: seq<string> -> string, a: SubkeyArray): string { format(Texts(a)) }

  /** The hash and format functions of one holder. */
  datatype Setup = Setup(h: Subkey -> bv64, format: seq<string> -> string)

  /** A node of the global map, which never moves: a subkey array and its formatted key. */
  datatype Node = Node(subkeys: SubkeyArray, key: string)

  /** What a thread's map has for a subkey array: pointers to a node's array and key, and a cached object. */
  datatype Slot = Slot(ref: nat, key: nat, cached: nat)

  datatype Last = Null | Last(hash: bv64, ref: nat, key: nat, cached: nat)

  datatype Pc =
    | Idle
    | Lookup(subkeys: SubkeyArray)         // getFormattedEntry()
    | Shared(subkeys: SubkeyArray)         // getFormattedKeyGlobal()
    | WaitUpgrade(subkeys: SubkeyArray)
    | Upgraded(subkeys: SubkeyArray)
    | Prepare(subkeys: SubkeyArray)
    | Emplace(subkeys: SubkeyArray)
    | Fill(subkeys: SubkeyArray, node: nat) // getFormattedKeySlow()

  datatype Thread = Thread(pc: Pc, last: Last, slots: map<SubkeyArray, Slot>)

  /** A call's result: the formatted key and the name its cached object was made for. */
  datatype Return = Return(thread: nat, subkeys: SubkeyArray, key: string, cachedFor: string)

  datatype Call = Call(subkeys: SubkeyArray, key: string, threw: bool)

  datatype State = State(
    nodes: seq<Node>,
    cached: seq<string>,                   // the cached objects made so far, by the name each was made for
    threads: seq<Thread>,
    prepared: seq<Call>,                   // the calls of prepareKey
    returned: seq<Return>)

  const INIT := State([], [], [], [], [])

  datatype Action =
    | Spawn
    | Get(t: nat, subkeys: SubkeyArray)
    | Erase(t: nat, subkeys: SubkeyArray)
    | Step(t: nat, throws: bool)

  /** The global map's node for a subkey array, or -1. */
  function Find(nodes: seq<Node>, subkeys: SubkeyArray): (i: int)
    ensures -1 <= i < |nodes| && (i >= 0 ==> nodes[i].subkeys == subkeys)
    ensures i < 0 ==> forall j :: 0 <= j < |nodes| ==> nodes[j].subkeys != subkeys
  {
    if nodes == [] then -1
    else if nodes[|nodes| - 1].subkeys == subkeys then |nodes| - 1
    else Find(nodes[..|nodes| - 1], subkeys)
  }

  predicate HoldsUpgrade(pc: Pc) { pc.Upgraded? || pc.Prepare? || pc.Emplace? }

  function Put(s: State, t: nat, th: Thread): State
    requires t < |s.threads|
  {
    s.(threads := s.threads[t := th])
  }

  function Move(s: State, t: nat, pc: Pc): State
    requires t < |s.threads|
  {
    Put(s, t, s.threads[t].(pc := pc))
  }

  /** Returns the entry a slot points to, and remembers it as the last one found. */
  function Answer(setup: Setup, s: State, t: nat, subkeys: SubkeyArray, slot: Slot): State
    requires t < |s.threads|
  {
    if slot.key < |s.nodes| && slot.cached < |s.cached|
    then Put(s, t, s.threads[t].(pc := Idle, last := Last(Hash(setup.h, subkeys), slot.ref, slot.key, slot.cached))).(
           returned := s.returned + [Return(t, subkeys, s.nodes[slot.key].key, s.cached[slot.cached])])
    else s
  }

  /** The last-found item is the one asked for: its hash first, then its subkeys. */
  predicate LastHit(setup: Setup, s: State, last: Last, subkeys: SubkeyArray) {
    last.Last? && last.hash == Hash(setup.h, subkeys) && last.ref < |s.nodes| && s.nodes[last.ref].subkeys == subkeys
  }

  function NextStep(setup: Setup, s: State, t: nat, throws: bool): State
    requires t < |s.threads|
  {
    var th := s.threads[t];
    match th.pc
    case Idle => s
    case Lookup(subkeys) =>
      if LastHit(setup, s, th.last, subkeys)
      then Answer(setup, s, t, subkeys, Slot(th.last.ref, th.last.key, th.last.cached))
      else if subkeys in th.slots then Answer(setup, s, t, subkeys, th.slots[subkeys])
      else Move(s, t, Shared(subkeys))
    case Shared(subkeys) =>
      var i := Find(s.nodes, subkeys);
      Move(s, t, if i >= 0 then Fill(subkeys, i) else WaitUpgrade(subkeys))
    case WaitUpgrade(subkeys) =>
      if exists u :: 0 <= u < |s.threads| && HoldsUpgrade(s.threads[u].pc) then s else Move(s, t, Upgraded(subkeys))
    case Upgraded(subkeys) =>
      var i := Find(s.nodes, subkeys);
      Move(s, t, if i >= 0 then Fill(subkeys, i) else Prepare(subkeys))
    case Prepare(subkeys) =>
      Move(s, t, if throws then Idle else Emplace(subkeys)).(
        prepared := s.prepared + [Call(subkeys, FormatKey(setup.format, subkeys), throws)])
    case Emplace(subkeys) =>
      Move(s, t, Fill(subkeys, |s.nodes|)).(nodes := s.nodes + [Node(subkeys, FormatKey(setup.format, subkeys))])
    case Fill(subkeys, node) =>
      if throws || node >= |s.nodes| then Move(s, t, Idle)
      else
        var slot := Slot(node, node, |s.cached|);
        var s1 := Put(s, t, th.(slots := th.slots[subkeys := slot])).(cached := s.cached + [s.nodes[node].key]);
        Answer(setup, s1, t, subkeys, slot)
  }

  /** One step; an action that is not enabled changes nothing. */
  function Next(setup: Setup, s: State, a: Action): State {
    match a
    case Spawn => s.(threads := s.threads + [Thread(Idle, Null, map[])])
    case Get(t, subkeys) =>
      if t < |s.threads| && s.threads[t].pc == Idle then Move(s, t, Lookup(subkeys)) else s
    case Erase(t, subkeys) =>
      if t < |s.threads| && s.threads[t].pc == Idle
      then Put(s, t, s.threads[t].(slots := s.threads[t].slots - {subkeys}, last := Null)) else s
    case Step(t, throws) => if t < |s.threads| then NextStep(setup, s, t, throws) else s
  }

  function Run(setup: Setup, acts: seq<Action>): State {
    if acts == [] then INIT else Next(setup, Run(setup, acts[..|acts| - 1]), acts[|acts| - 1])
  }

  // ----- the invariant -----

  /** The global map has each array once, with its own format. */
  predicate NodesOk(setup: Setup, s: State) {
    && (forall i :: 0 <= i < |s.nodes| ==> s.nodes[i].key == FormatKey(setup.format, s.nodes[i].subkeys))
    && (forall i, j :: 0 <= i < j < |s.nodes| ==> s.nodes[i].subkeys != s.nodes[j].subkeys)
  }

  /** A slot for an array points to that array's node, with an object made for its key. */
  predicate SlotOk(s: State, subkeys: SubkeyArray, slot: Slot) {
    && slot.ref < |s.nodes| && slot.key == slot.ref && s.nodes[slot.ref].subkeys == subkeys
    && slot.cached < |s.cached| && s.cached[slot.cached] == s.nodes[slot.ref].key
  }

  /** The last-found item is null, or what the thread's map has for its array. */
  predicate LastOk(setup: Setup, s: State, th: Thread) {
    th.last.Last? ==>
      && th.last.ref < |s.nodes|
      && var a := s.nodes[th.last.ref].subkeys;
         th.last.hash == Hash(setup.h, a) && a in th.slots
         && th.slots[a] == Slot(th.last.ref, th.last.key, th.last.cached)
  }

  /** Whether a normal prepareKey for an array has been made, and the array not yet put in the map. */
  predicate PcOk(setup: Setup, s: State, th: Thread) {
    match th.pc
    case Fill(subkeys, node) => node < |s.nodes| && s.nodes[node].subkeys == subkeys && subkeys !in th.slots
    case Shared(subkeys) => subkeys !in th.slots
    case WaitUpgrade(subkeys) => subkeys !in th.slots
    case Upgraded(subkeys) => subkeys !in th.slots
    case Prepare(subkeys) => subkeys !in th.slots && Find(s.nodes, subkeys) < 0
    case Emplace(subkeys) => subkeys !in th.slots && Find(s.nodes, subkeys) < 0
    case _ => true
  }

  predicate ThreadOk(setup: Setup, s: State, th: Thread) {
    (forall a :: a in th.slots ==> SlotOk(s, a, th.slots[a])) && LastOk(setup, s, th) && PcOk(setup, s, th)
  }

  /** At most one thread holds the upgrade lock. */
  predicate OneUpgrade(s: State) {
    forall t, u :: 0 <= t < u < |s.threads| ==> !(HoldsUpgrade(s.threads[t].pc) && HoldsUpgrade(s.threads[u].pc))
  }

  /** An array whose prepareKey returned is in the map, or its thread is about to put it there. */
  ghost predicate Settled(s: State, a: SubkeyArray) {
    Find(s.nodes, a) >= 0 || exists t :: 0 <= t < |s.threads| && s.threads[t].pc == Emplace(a)
  }

  ghost predicate CallsOk(setup: Setup, s: State) {
    && (forall i :: 0 <= i < |s.prepared| ==> s.prepared[i].key == FormatKey(setup.format, s.prepared[i].subkeys))
    && (forall i :: 0 <= i < |s.prepared| && !s.prepared[i].threw ==> Settled(s, s.prepared[i].subkeys))
    && (forall i, j :: 0 <= i < j < |s.prepared| && s.prepared[i].subkeys == s.prepared[j].subkeys ==>
          s.prepared[i].threw)
    && (forall i :: 0 <= i < |s.nodes| ==> Prepared(s, s.nodes[i].subkeys))
    && (forall t :: 0 <= t < |s.threads| && s.threads[t].pc.Emplace? ==> Prepared(s, s.threads[t].pc.subkeys))
  }

  ghost predicate Prepared(s: State, a: SubkeyArray) {
    exists i :: 0 <= i < |s.prepared| && s.prepared[i].subkeys == a && !s.prepared[i].threw
  }

  predicate ReturnOk(setup: Setup, s: State, r: Return) {
    r.key == FormatKey(setup.format, r.subkeys) && r.cachedFor == r.key && Find(s.nodes, r.subkeys) >= 0
  }

  ghost predicate Inv(setup: Setup, s: State) {
    && NodesOk(setup, s)
    && (forall t :: 0 <= t < |s.threads| ==> ThreadOk(setup, s, s.threads[t]))
    && OneUpgrade(s)
    && CallsOk(setup, s)
    && (forall i :: 0 <= i < |s.returned| ==> ReturnOk(setup, s, s.returned[i]))
  }
}
