/** What `FormattedKeys` keeps in every run, and what its callers get. */
module FormattedKeysProof {
  import opened Decimals
  import opened FormattedKeys
  import opened Formats

  lemma FindAppended(nodes: seq<Node>, n: Node, a: SubkeyArray)
    ensures Find(nodes + [n], a) == if n.subkeys == a then |nodes| else Find(nodes, a)
  {
    assert (nodes + [n])[..|nodes|] == nodes;
  }

  lemma {:induction false} FindIs(nodes: seq<Node>, i: nat)
    requires i < |nodes|
    ensures Find(nodes, nodes[i].subkeys) >= 0
  {
    if i < |nodes| - 1 {
      FindIs(nodes[..|nodes| - 1], i);
    }
  }

  /** A thread moves on; its maps and everything shared stay. */
  lemma MoveKeeps(setup: Setup, s: State, t: nat, pc: Pc)
    requires Inv(setup, s) && t < |s.threads|
    requires !s.threads[t].pc.Emplace? && !pc.Emplace?
    requires PcOk(setup, s, s.threads[t].(pc := pc))
    requires HoldsUpgrade(pc) ==> forall u :: 0 <= u < |s.threads| && u != t ==> !HoldsUpgrade(s.threads[u].pc)
    ensures Inv(setup, Move(s, t, pc))
  {
    hide NodesOk, PcOk, Hash, Find, FormatKey;
    var s' := Move(s, t, pc);
    SameNodes(setup, s, s');
    forall u | 0 <= u < |s'.threads| ensures ThreadOk(setup, s', s'.threads[u]) {
      if u != t {
        SameThread(setup, s, s', s.threads[u], s.threads[u].pc);
      } else {
        SameThread(setup, s, s', s.threads[t], pc);
      }
    }
    SameCalls(setup, s, s');
  }

  lemma SameNodes(setup: Setup, s: State, s': State)
    requires NodesOk(setup, s) && s'.nodes == s.nodes
    ensures NodesOk(setup, s')
  {}

  lemma SameThread(setup: Setup, s: State, s': State, th: Thread, pc: Pc)
    requires ThreadOk(setup, s, th) && PcOk(setup, s, th.(pc := pc)) && s'.nodes == s.nodes && s'.cached == s.cached
    ensures ThreadOk(setup, s', th.(pc := pc))
  {
    hide Hash, Find, FormatKey;
  }

  lemma SameCalls(setup: Setup, s: State, s': State)
    requires CallsOk(setup, s) && s'.nodes == s.nodes && s'.prepared == s.prepared && |s'.threads| == |s.threads|
    requires forall t :: 0 <= t < |s.threads| ==>
      s'.threads[t].pc == s.threads[t].pc || (!s'.threads[t].pc.Emplace? && !s.threads[t].pc.Emplace?)
    ensures CallsOk(setup, s')
  {
    hide Find, FormatKey;
    forall i | 0 <= i < |s'.prepared| && !s'.prepared[i].threw ensures Settled(s', s'.prepared[i].subkeys) {
      assert Settled(s, s.prepared[i].subkeys);
      if Find(s.nodes, s.prepared[i].subkeys) < 0 {
        var t :| 0 <= t < |s.threads| && s.threads[t].pc == Emplace(s.prepared[i].subkeys);
        assert s'.threads[t].pc == Emplace(s.prepared[i].subkeys);
      }
    }
    forall i | 0 <= i < |s'.nodes| ensures Prepared(s', s'.nodes[i].subkeys) {
      assert Prepared(s, s.nodes[i].subkeys);
    }
    forall t | 0 <= t < |s'.threads| && s'.threads[t].pc.Emplace? ensures Prepared(s', s'.threads[t].pc.subkeys) {
      assert Prepared(s, s.threads[t].pc.subkeys);
    }
  }

  /** The slot's entry is the format of its own array, and is remembered as such. */
  lemma AnswerKeeps(setup: Setup, s: State, t: nat, subkeys: SubkeyArray, slot: Slot)
    requires Inv(setup, s) && t < |s.threads| && !s.threads[t].pc.Emplace?
    requires subkeys in s.threads[t].slots && s.threads[t].slots[subkeys] == slot
    ensures Inv(setup, Answer(setup, s, t, subkeys, slot))
  {
    hide Hash, Find, FormatKey, NodesOk, CallsOk;
    var th := s.threads[t];
    var s' := Answer(setup, s, t, subkeys, slot);
    assert SlotOk(s, subkeys, slot);
    SameNodes(setup, s, s');
    FindIs(s.nodes, slot.ref);
    OwnFormat(setup, s, slot.ref);
    forall u | 0 <= u < |s'.threads| ensures ThreadOk(setup, s', s'.threads[u]) {
      if u != t {
        SameThread(setup, s, s', s.threads[u], s.threads[u].pc);
      } else {
        forall a | a in th.slots ensures SlotOk(s', a, th.slots[a]) {
          assert SlotOk(s, a, th.slots[a]);
        }
      }
    }
    SameCalls(setup, s, s');
    forall i | 0 <= i < |s'.returned| ensures ReturnOk(setup, s', s'.returned[i]) {
      assert i < |s.returned| ==> ReturnOk(setup, s, s.returned[i]);
    }
  }

  lemma OwnFormat(setup: Setup, s: State, i: nat)
    requires NodesOk(setup, s) && i < |s.nodes|
    ensures s.nodes[i].key == FormatKey(setup.format, s.nodes[i].subkeys)
  {}

  /** A hit on the last-found item gives what the thread's map would, hash collisions or not. */
  lemma LastHitIsAMapHit(setup: Setup, s: State, th: Thread, subkeys: SubkeyArray)
    requires ThreadOk(setup, s, th) && LastHit(setup, s, th.last, subkeys)
    ensures subkeys in th.slots && th.slots[subkeys] == Slot(th.last.ref, th.last.key, th.last.cached)
  {}

  lemma LookupKeeps(setup: Setup, s: State, t: nat)
    requires Inv(setup, s) && t < |s.threads| && s.threads[t].pc.Lookup?
    ensures Inv(setup, NextStep(setup, s, t, false))
  {
    hide Hash, Find, FormatKey, NodesOk, CallsOk, Answer;
    var th, subkeys := s.threads[t], s.threads[t].pc.subkeys;
    assert ThreadOk(setup, s, th);
    if LastHit(setup, s, th.last, subkeys) {
      LastHitIsAMapHit(setup, s, th, subkeys);
      AnswerKeeps(setup, s, t, subkeys, th.slots[subkeys]);
    } else if subkeys in th.slots {
      AnswerKeeps(setup, s, t, subkeys, th.slots[subkeys]);
    } else {
      MoveKeeps(setup, s, t, Shared(subkeys));
    }
  }

  lemma FindStepKeeps(setup: Setup, s: State, t: nat)
    requires Inv(setup, s) && t < |s.threads| && (s.threads[t].pc.Shared? || s.threads[t].pc.Upgraded?)
    ensures Inv(setup, NextStep(setup, s, t, false))
  {
    hide Hash, FormatKey, NodesOk, CallsOk, LastOk, SlotOk;
    var pc := s.threads[t].pc;
    assert ThreadOk(setup, s, s.threads[t]);
    var i := Find(s.nodes, pc.subkeys);
    var next := if pc.Shared? then WaitUpgrade(pc.subkeys) else Prepare(pc.subkeys);
    MoveKeeps(setup, s, t, if i >= 0 then Fill(pc.subkeys, i) else next);
  }

  lemma UpgradeKeeps(setup: Setup, s: State, t: nat)
    requires Inv(setup, s) && t < |s.threads| && s.threads[t].pc.WaitUpgrade?
    ensures Inv(setup, NextStep(setup, s, t, false))
  {
    hide Hash, Find, FormatKey, NodesOk, CallsOk, LastOk, SlotOk;
    assert ThreadOk(setup, s, s.threads[t]);
    if forall u :: 0 <= u < |s.threads| ==> !HoldsUpgrade(s.threads[u].pc) {
      MoveKeeps(setup, s, t, Upgraded(s.threads[t].pc.subkeys));
    }
  }

  // ----- prepareKey and the insertion that follows it -----

  lemma PrepareThreads(setup: Setup, s: State, s': State, t: nat)
    requires Inv(setup, s) && t < |s.threads| && s.threads[t].pc.Prepare?
    requires s'.nodes == s.nodes && s'.cached == s.cached
    requires |s'.threads| == |s.threads| && s'.threads == s.threads[t := s.threads[t].(pc := s'.threads[t].pc)]
    requires s'.threads[t].pc in {Idle, Emplace(s.threads[t].pc.subkeys)}
    ensures OneUpgrade(s') && forall u :: 0 <= u < |s'.threads| ==> ThreadOk(setup, s', s'.threads[u])
  {
    hide Hash, Find, FormatKey, NodesOk, CallsOk;
    assert ThreadOk(setup, s, s.threads[t]);
    forall u | 0 <= u < |s'.threads| ensures ThreadOk(setup, s', s'.threads[u]) {
      SameThread(setup, s, s', s.threads[u], s'.threads[u].pc);
    }
  }

  lemma PrepareCalls(setup: Setup, s: State, t: nat, throws: bool)
    requires Inv(setup, s) && t < |s.threads| && s.threads[t].pc.Prepare?
    ensures CallsOk(setup, NextStep(setup, s, t, throws))
  {
    hide Hash, Find, FormatKey, NodesOk, LastOk, SlotOk;
    var a := s.threads[t].pc.subkeys;
    var s' := NextStep(setup, s, t, throws);
    var n := |s.prepared|;
    assert ThreadOk(setup, s, s.threads[t]);
    forall i | 0 <= i < n && !s.prepared[i].threw
      ensures Settled(s', s.prepared[i].subkeys) && s.prepared[i].subkeys != a
    {
      assert Settled(s, s.prepared[i].subkeys);
    }
    assert !throws ==> s'.threads[t].pc == Emplace(a);
    forall b | Prepared(s, b) ensures Prepared(s', b) {
      var i :| 0 <= i < n && s.prepared[i].subkeys == b && !s.prepared[i].threw;
      assert s'.prepared[i] == s.prepared[i];
    }
    assert !throws ==> Prepared(s', a) by { assert s'.prepared[n] == Call(a, FormatKey(setup.format, a), throws); }
  }

  lemma PrepareKeeps(setup: Setup, s: State, t: nat, throws: bool)
    requires Inv(setup, s) && t < |s.threads| && s.threads[t].pc.Prepare?
    ensures Inv(setup, NextStep(setup, s, t, throws))
  {
    var s' := NextStep(setup, s, t, throws);
    PrepareCalls(setup, s, t, throws);
    hide Hash, Find, FormatKey, CallsOk;
    SameNodes(setup, s, s');
    hide NodesOk;
    PrepareThreads(setup, s, s', t);
    forall i | 0 <= i < |s'.returned| ensures ReturnOk(setup, s', s'.returned[i]) {
      assert ReturnOk(setup, s, s.returned[i]);
    }
  }

  /** Other threads' pointers survive an insertion: nodes do not move. */
  lemma GrownThread(setup: Setup, s: State, s': State, th: Thread, n: Node)
    requires ThreadOk(setup, s, th) && s'.nodes == s.nodes + [n] && s'.cached == s.cached
    requires !HoldsUpgrade(th.pc)
    ensures ThreadOk(setup, s', th)
  {
    hide Hash, Find, FormatKey;
    forall a | a in th.slots ensures SlotOk(s', a, th.slots[a]) {
      assert SlotOk(s, a, th.slots[a]);
    }
  }

  lemma InserterOk(setup: Setup, s: State, s': State, th: Thread)
    requires ThreadOk(setup, s, th) && th.pc.Emplace? && s'.cached == s.cached
    requires s'.nodes == s.nodes + [Node(th.pc.subkeys, FormatKey(setup.format, th.pc.subkeys))]
    ensures ThreadOk(setup, s', th.(pc := Fill(th.pc.subkeys, |s.nodes|)))
  {
    hide Hash, Find, FormatKey;
    forall a | a in th.slots ensures SlotOk(s', a, th.slots[a]) {
      assert SlotOk(s, a, th.slots[a]);
    }
  }

  lemma EmplaceCalls(setup: Setup, s: State, t: nat)
    requires Inv(setup, s) && t < |s.threads| && s.threads[t].pc.Emplace?
    ensures CallsOk(setup, NextStep(setup, s, t, false))
  {
    hide Hash, Find, FormatKey, NodesOk, LastOk, SlotOk;
    var a := s.threads[t].pc.subkeys;
    var n := Node(a, FormatKey(setup.format, a));
    var s' := NextStep(setup, s, t, false);
    forall b | Prepared(s, b) ensures Prepared(s', b) {}
    forall i | 0 <= i < |s.prepared| && !s.prepared[i].threw ensures Settled(s', s.prepared[i].subkeys) {
      var b := s.prepared[i].subkeys;
      assert Settled(s, b);
      FindAppended(s.nodes, n, b);
    }
    assert Prepared(s, a);
  }

  lemma EmplaceNodes(setup: Setup, s: State, s': State, a: SubkeyArray)
    requires NodesOk(setup, s) && Find(s.nodes, a) < 0
    requires s'.nodes == s.nodes + [Node(a, FormatKey(setup.format, a))]
    ensures NodesOk(setup, s')
  {
    hide FormatKey;
  }

  lemma EmplaceKeeps(setup: Setup, s: State, t: nat)
    requires Inv(setup, s) && t < |s.threads| && s.threads[t].pc.Emplace?
    ensures Inv(setup, NextStep(setup, s, t, false))
  {
    var s' := NextStep(setup, s, t, false);
    var a := s.threads[t].pc.subkeys;
    EmplaceCalls(setup, s, t);
    hide Hash, Find, FormatKey, CallsOk, NodesOk;
    assert ThreadOk(setup, s, s.threads[t]);
    EmplaceNodes(setup, s, s', a);
    forall u | 0 <= u < |s'.threads| ensures ThreadOk(setup, s', s'.threads[u]) {
      if u == t {
        InserterOk(setup, s, s', s.threads[t]);
      } else {
        GrownThread(setup, s, s', s.threads[u], Node(a, FormatKey(setup.format, a)));
      }
    }
    forall i | 0 <= i < |s'.returned| ensures ReturnOk(setup, s', s'.returned[i]) {
      assert ReturnOk(setup, s, s.returned[i]);
      FindAppended(s.nodes, Node(a, FormatKey(setup.format, a)), s.returned[i].subkeys);
    }
  }

  /** The array and its new slot go into the thread's map. */
  lemma FilledKeeps(setup: Setup, s: State, t: nat)
    requires Inv(setup, s) && t < |s.threads| && s.threads[t].pc.Fill?
    ensures var th := s.threads[t];
      var slot := Slot(th.pc.node, th.pc.node, |s.cached|);
      th.pc.node < |s.nodes|
      && Inv(setup, Put(s, t, th.(pc := Idle, slots := th.slots[th.pc.subkeys := slot])).(
                      cached := s.cached + [s.nodes[th.pc.node].key]))
  {
    hide Hash, Find, FormatKey, CallsOk, NodesOk;
    var th := s.threads[t];
    assert ThreadOk(setup, s, th);
    var slot := Slot(th.pc.node, th.pc.node, |s.cached|);
    var s' := Put(s, t, th.(pc := Idle, slots := th.slots[th.pc.subkeys := slot])).(
                cached := s.cached + [s.nodes[th.pc.node].key]);
    SameNodes(setup, s, s');
    SameCalls(setup, s, s');
    forall u | 0 <= u < |s'.threads| ensures ThreadOk(setup, s', s'.threads[u]) {
      assert ThreadOk(setup, s, s.threads[u]);
      forall a | a in s'.threads[u].slots ensures SlotOk(s', a, s'.threads[u].slots[a]) {
        assert a in s.threads[u].slots ==> SlotOk(s, a, s.threads[u].slots[a]);
      }
    }
    forall i | 0 <= i < |s'.returned| ensures ReturnOk(setup, s', s'.returned[i]) {
      assert ReturnOk(setup, s, s.returned[i]);
    }
  }

  lemma FillKeeps(setup: Setup, s: State, t: nat, throws: bool)
    requires Inv(setup, s) && t < |s.threads| && s.threads[t].pc.Fill?
    ensures Inv(setup, NextStep(setup, s, t, throws))
  {
    hide Hash, Find, FormatKey, CallsOk, NodesOk, ThreadOk;
    var th := s.threads[t];
    var subkeys, node := th.pc.subkeys, th.pc.node;
    FilledKeeps(setup, s, t);
    if throws {
      MoveKeeps(setup, s, t, Idle);
    } else {
      var slot := Slot(node, node, |s.cached|);
      var s1 := Put(s, t, th.(slots := th.slots[subkeys := slot])).(cached := s.cached + [s.nodes[node].key]);
      var s2 := Put(s, t, th.(pc := Idle, slots := th.slots[subkeys := slot])).(
                  cached := s.cached + [s.nodes[node].key]);
      hide Inv;
      AnswerKeeps(setup, s2, t, subkeys, slot);
      assert Answer(setup, s1, t, subkeys, slot) == Answer(setup, s2, t, subkeys, slot) by {
        assert s1.threads[t := s2.threads[t]] == s2.threads;
      }
    }
  }

  lemma StepKeeps(setup: Setup, s: State, t: nat, throws: bool)
    requires Inv(setup, s) && t < |s.threads|
    ensures Inv(setup, NextStep(setup, s, t, throws))
  {
    hide Inv, Answer, Find, Hash, FormatKey;
    var pc := s.threads[t].pc;
    if pc.Lookup? {
      LookupKeeps(setup, s, t);
    } else if pc.Shared? || pc.Upgraded? {
      FindStepKeeps(setup, s, t);
    } else if pc.WaitUpgrade? {
      UpgradeKeeps(setup, s, t);
    } else if pc.Prepare? {
      PrepareKeeps(setup, s, t, throws);
    } else if pc.Emplace? {
      EmplaceKeeps(setup, s, t);
    } else if pc.Fill? {
      FillKeeps(setup, s, t, throws);
    }
  }

  lemma SpawnKeeps(setup: Setup, s: State)
    requires Inv(setup, s)
    ensures Inv(setup, s.(threads := s.threads + [Thread(Idle, Null, map[])]))
  {
    hide Hash, Find, FormatKey, NodesOk;
    var s' := s.(threads := s.threads + [Thread(Idle, Null, map[])]);
    SameNodes(setup, s, s');
    forall u | 0 <= u < |s'.threads| ensures ThreadOk(setup, s', s'.threads[u]) {
      if u < |s.threads| {
        SameThread(setup, s, s', s.threads[u], s.threads[u].pc);
      }
    }
    forall i | 0 <= i < |s'.prepared| && !s'.prepared[i].threw ensures Settled(s', s'.prepared[i].subkeys) {
      assert Settled(s, s.prepared[i].subkeys);
      if Find(s.nodes, s.prepared[i].subkeys) < 0 {
        var t :| 0 <= t < |s.threads| && s.threads[t].pc == Emplace(s.prepared[i].subkeys);
        assert s'.threads[t].pc == Emplace(s.prepared[i].subkeys);
      }
    }
    forall b | Prepared(s, b) ensures Prepared(s', b) {}
    forall i | 0 <= i < |s'.returned| ensures ReturnOk(setup, s', s'.returned[i]) {
      assert ReturnOk(setup, s, s.returned[i]);
    }
  }

  lemma EraseKeeps(setup: Setup, s: State, t: nat, a: SubkeyArray)
    requires Inv(setup, s) && t < |s.threads| && s.threads[t].pc == Idle
    ensures Inv(setup, Put(s, t, s.threads[t].(slots := s.threads[t].slots - {a}, last := Null)))
  {
    hide Hash, Find, FormatKey, NodesOk, CallsOk;
    var s' := Put(s, t, s.threads[t].(slots := s.threads[t].slots - {a}, last := Null));
    SameNodes(setup, s, s');
    SameCalls(setup, s, s');
    forall u | 0 <= u < |s'.threads| ensures ThreadOk(setup, s', s'.threads[u]) {
      if u != t {
        SameThread(setup, s, s', s.threads[u], s.threads[u].pc);
      } else {
        forall b | b in s'.threads[t].slots ensures SlotOk(s', b, s'.threads[t].slots[b]) {
          assert SlotOk(s, b, s.threads[t].slots[b]);
        }
      }
    }
    forall i | 0 <= i < |s'.returned| ensures ReturnOk(setup, s', s'.returned[i]) {
      assert ReturnOk(setup, s, s.returned[i]);
    }
  }

  lemma NextKeeps(setup: Setup, s: State, a: Action)
    requires Inv(setup, s)
    ensures Inv(setup, Next(setup, s, a))
  {
    hide Inv, NextStep;
    match a
    case Spawn => SpawnKeeps(setup, s);
    case Get(t, subkeys) =>
      if t < |s.threads| && s.threads[t].pc == Idle {
        MoveKeeps(setup, s, t, Lookup(subkeys));
      }
    case Erase(t, subkeys) =>
      if t < |s.threads| && s.threads[t].pc == Idle {
        EraseKeeps(setup, s, t, subkeys);
      }
    case Step(t, throws) =>
      if t < |s.threads| {
        StepKeeps(setup, s, t, throws);
      }
  }

  lemma {:induction false} RunKeeps(setup: Setup, acts: seq<Action>)
    ensures Inv(setup, Run(setup, acts))
  {
    hide Next;
    if acts != [] {
      RunKeeps(setup, acts[..|acts| - 1]);
      NextKeeps(setup, Run(setup, acts[..|acts| - 1]), acts[|acts| - 1]);
    }
  }

  // ----- what holds of every run -----

  /** Every call returns the format of its own subkeys, with an object cached for that key. */
  lemma ReturnsItsOwnFormat(setup: Setup, acts: seq<Action>, i: nat)
    requires i < |Run(setup, acts).returned|
    ensures var r := Run(setup, acts).returned[i];
      r.key == FormatKey(setup.format, r.subkeys) && r.cachedFor == r.key
  {
    hide Run;
    RunKeeps(setup, acts);
    assert ReturnOk(setup, Run(setup, acts), Run(setup, acts).returned[i]);
  }

  /** The last-found item is null or has the thread's own slot for its array, and that array's hash. */
  lemma LastAgrees(setup: Setup, acts: seq<Action>, t: nat)
    requires t < |Run(setup, acts).threads| && Run(setup, acts).threads[t].last.Last?
    ensures var s := Run(setup, acts);
      var last := s.threads[t].last;
      && last.ref < |s.nodes| && last.hash == Hash(setup.h, s.nodes[last.ref].subkeys)
      && s.nodes[last.ref].subkeys in s.threads[t].slots
      && s.threads[t].slots[s.nodes[last.ref].subkeys] == Slot(last.ref, last.key, last.cached)
  {
    hide Run;
    RunKeeps(setup, acts);
    assert ThreadOk(setup, Run(setup, acts), Run(setup, acts).threads[t]);
  }

  /**
    Among the calls of prepareKey for one array, whatever the threads, at most one returns
    and none follows it: without exceptions there is at most one.
   */
  lemma PreparedOnce(setup: Setup, acts: seq<Action>, i: nat, j: nat)
    requires i < j < |Run(setup, acts).prepared|
    requires Run(setup, acts).prepared[i].subkeys == Run(setup, acts).prepared[j].subkeys
    ensures Run(setup, acts).prepared[i].threw
  {
    hide Run;
    RunKeeps(setup, acts);
  }

  /** A key that was ever returned has been prepared. */
  lemma PreparedBeforeUse(setup: Setup, acts: seq<Action>, i: nat)
    requires i < |Run(setup, acts).returned|
    ensures Prepared(Run(setup, acts), Run(setup, acts).returned[i].subkeys)
  {
    hide Run, Prepared;
    RunKeeps(setup, acts);
    var s := Run(setup, acts);
    assert ReturnOk(setup, s, s.returned[i]);
    assert Prepared(s, s.nodes[Find(s.nodes, s.returned[i].subkeys)].subkeys);
  }

  // ----- the hash and the format -----

  /** Swapping two subkeys does not change the hash, so the hash alone cannot tell arrays apart. */
  lemma PermutedSubkeysCollide(h: Subkey -> bv64, a: SubkeyArray, x: Subkey, b: SubkeyArray, y: Subkey)
    ensures Hash(h, a + [x] + b + [y]) == Hash(h, a + [y] + b + [x])
  {
    hide Hash, Xor;
    HashParts(h, a, x, b, y);
    HashParts(h, a, y, b, x);
    XorSwaps(Hash(h, a), h(x), Hash(h, b), h(y));
  }

  lemma XorSwaps(p: bv64, q: bv64, r: bv64, t: bv64)
    ensures Xor(Xor(Xor(p, q), r), t) == Xor(Xor(Xor(p, t), r), q)
  {
    hide Xor;
    XorAssociates(p, q, r);
    XorAssociates(p, Xor(q, r), t);
    XorAssociates(p, t, r);
    XorAssociates(p, Xor(t, r), q);
    XorCommutes(q, r);
    XorCommutes(Xor(r, q), t);
    XorAssociates(t, r, q);
  }

  lemma XorCommutes(p: bv64, q: bv64)
    ensures Xor(p, q) == Xor(q, p)
  {}

  lemma XorAssociates(p: bv64, q: bv64, r: bv64)
    ensures Xor(Xor(p, q), r) == Xor(p, Xor(q, r)) && Xor(p, 0) == p
  {}

  lemma HashAppend(h: Subkey -> bv64, a: SubkeyArray, x: Subkey)
    ensures Hash(h, a + [x]) == Xor(Hash(h, a), h(x))
  {
    hide Xor;
    assert (a + [x])[..|a|] == a;
  }

  lemma {:induction false} HashConcat(h: Subkey -> bv64, a: SubkeyArray, b: SubkeyArray)
    ensures Hash(h, a + b) == Xor(Hash(h, a), Hash(h, b))
  {
    hide Xor;
    if b == [] {
      assert a + b == a;
      XorAssociates(Hash(h, a), 0, 0);
    } else {
      hide Hash;
      var n := |b| - 1;
      assert a + b == (a + b[..n]) + [b[n]] && b == b[..n] + [b[n]];
      HashConcat(h, a, b[..n]);
      HashAppend(h, a + b[..n], b[n]);
      HashAppend(h, b[..n], b[n]);
      XorAssociates(Hash(h, a), Hash(h, b[..n]), h(b[n]));
    }
  }

  lemma HashParts(h: Subkey -> bv64, a: SubkeyArray, x: Subkey, b: SubkeyArray, y: Subkey)
    ensures Hash(h, a + [x] + b + [y]) == Xor(Xor(Xor(Hash(h, a), h(x)), Hash(h, b)), h(y))
  {
    hide Hash, Xor;
    HashAppend(h, a + [x] + b, y);
    HashConcat(h, a + [x], b);
    HashAppend(h, a, x);
  }

  /** Equal, or an integer and its decimal text. */
  predicate SameText(x: Subkey, y: Subkey) {
    x == y || (x.Int? && y == Str(IntText(x.i))) || (y.Int? && x == Str(IntText(y.i)))
  }

  predicate SameTexts(a: SubkeyArray, b: SubkeyArray)
    requires |a| == |b|
  {
    forall i :: 0 <= i < |a| ==> SameText(a[i], b[i])
  }

  lemma SameTextIff(x: Subkey, y: Subkey)
    ensures Text(x) == Text(y) <==> SameText(x, y)
  {
    if x.Int? && y.Int? {
      IntTextInjective(x.i, y.i);
    }
  }

  lemma {:induction false} TextsAt(a: SubkeyArray)
    ensures |Texts(a)| == |a| && forall i :: 0 <= i < |a| ==> Texts(a)[i] == Text(a[i])
  {
    if a != [] {
      TextsAt(a[..|a| - 1]);
    }
  }

  /**
    Two arrays of one length have the same texts exactly when they differ only by integers
    against their decimal texts.
   */
  lemma TextsCoincideIff(a: SubkeyArray, b: SubkeyArray)
    requires |a| == |b|
    ensures Texts(a) == Texts(b) <==> SameTexts(a, b)
  {
    TextsAt(a);
    TextsAt(b);
    forall i | 0 <= i < |a| ensures Texts(a)[i] == Texts(b)[i] <==> SameText(a[i], b[i]) {
      SameTextIff(a[i], b[i]);
    }
    if SameTexts(a, b) {
      assert Texts(a) == Texts(b);
    }
  }

  /** The holder's format fills these pieces' placeholders in order. */
  ghost predicate FillsInOrder(format: seq<string> -> string, pieces: seq<string>) {
    pieces != [] && forall texts :: |texts| == |pieces| - 1 ==> format(texts) == Filled(pieces, texts)
  }

  /**
    When two arrays share a key.  Under any format they do when they have the same texts;
    under one that fills its pieces in order, with any number of placeholders, they do exactly
    when the texts of one can be shifted into those of the other across the pieces.
   */
  lemma KeysCoincideIff(format: seq<string> -> string, pieces: seq<string>, a: SubkeyArray, b: SubkeyArray)
    requires |a| == |b|
    ensures SameTexts(a, b) ==> FormatKey(format, a) == FormatKey(format, b)
    ensures FillsInOrder(format, pieces) && |pieces| == |a| + 1 ==>
      |Texts(a)| == |Texts(b)| == |a|
      && (FormatKey(format, a) == FormatKey(format, b) <==> Shifts(pieces, Texts(a), Texts(b), "", ""))
  {
    hide Filled, Shifts, Texts;
    TextsCoincideIff(a, b);
    TextsAt(a);
    TextsAt(b);
    if FillsInOrder(format, pieces) && |pieces| == |a| + 1 {
      KeysEqualIff(pieces, Texts(a), Texts(b));
    }
  }

  /**
    With one subkey, or texts that lack the first characters of the pieces between them,
    only the same texts share a key.
   */
  lemma SeparatedKeysCoincideIff(format: seq<string> -> string, pieces: seq<string>, a: SubkeyArray, b: SubkeyArray)
    requires |a| == |b| && FillsInOrder(format, pieces) && |pieces| == |a| + 1
    requires |a| == 1 || (Separated(pieces, Texts(a)) && Separated(pieces, Texts(b)))
    ensures FormatKey(format, a) == FormatKey(format, b) <==> SameTexts(a, b)
  {
    hide Filled, Separated, Texts;
    TextsCoincideIff(a, b);
    TextsAt(a);
    TextsAt(b);
    if |a| == 1 {
      OneTellsApart(pieces);
    } else {
      SeparatedTellApart(pieces, Texts(a), Texts(b));
    }
  }

  /** With two subkeys: exactly when a part of the second text moves to the first across the piece between. */
  lemma PairKeysCoincideIff(format: seq<string> -> string, pieces: seq<string>, a: SubkeyArray, b: SubkeyArray)
    requires |a| == |b| == 2 && FillsInOrder(format, pieces) && |pieces| == 3 && |Text(a[0])| <= |Text(b[0])|
    ensures FormatKey(format, a) == FormatKey(format, b)
       <==> Slides(Text(a[0]), pieces[1], Text(a[1]), Text(b[0]), Text(b[1]))
  {
    hide Filled, Texts, Text, Slides;
    TextsAt(a);
    TextsAt(b);
    TwoEqualIff(pieces, Texts(a), Texts(b));
  }

  /**
    When prepareKey repeats a key.  Two of its calls that returned never had the same array;
    with a format that fills its pieces in order they had one key exactly when the texts of
    one array can be shifted into those of the other.
   */
  lemma PreparedKeyRepeatsIff(setup: Setup, pieces: seq<string>, acts: seq<Action>, i: nat, j: nat)
    requires var p := Run(setup, acts).prepared;
      && i < j < |p| && !p[i].threw && !p[j].threw && |p[i].subkeys| == |p[j].subkeys| == |pieces| - 1
    requires FillsInOrder(setup.format, pieces)
    ensures var p := Run(setup, acts).prepared;
      && p[i].subkeys != p[j].subkeys
      && |Texts(p[i].subkeys)| == |Texts(p[j].subkeys)| == |pieces| - 1
      && (p[i].key == p[j].key <==> Shifts(pieces, Texts(p[i].subkeys), Texts(p[j].subkeys), "", ""))
  {
    hide Run, FormatKey, Shifts, Filled, Texts, FillsInOrder;
    RunKeeps(setup, acts);
    var p := Run(setup, acts).prepared;
    KeysCoincideIff(setup.format, pieces, p[i].subkeys, p[j].subkeys);
  }

  lemma PairKey(format: seq<string> -> string, x: string, y: string)
    requires FillsInOrder(format, ["bar.", ".", ""])
    ensures FormatKey(format, [Str(x), Str(y)]) == "bar." + (x + "." + y + "")
    ensures Texts([Str(x), Str(y)]) == [x, y]
  {
    hide Filled;
    TextsAt([Str(x), Str(y)]);
    assert Texts([Str(x), Str(y)]) == [x, y];
    FillPair(["bar.", ".", ""], [x, y]);
  }

  /** Distinct arrays with distinct texts share a key, too: one of the format "bar.{}.{}". */
  lemma PairsMayShareAKey(format: seq<string> -> string)
    requires FillsInOrder(format, ["bar.", ".", ""])
    ensures var a, b := [Str("a.b"), Str("c")], [Str("a"), Str("b.c")];
      !SameTexts(a, b) && FormatKey(format, a) == FormatKey(format, b) == "bar.a.b.c"
  {
    hide FormatKey, FillsInOrder, Texts;
    PairKey(format, "a.b", "c");
    PairKey(format, "a", "b.c");
    assert "bar." + ("a.b" + "." + "c" + "") == "bar.a.b.c" == "bar." + ("a" + "." + "b.c" + "");
    var a, b := [Str("a.b"), Str("c")], [Str("a"), Str("b.c")];
    assert |"a.b"| != |"a"|;
    assert !SameText(a[0], b[0]);
  }

  /** An integer and its decimal text are such arrays, for any format. */
  lemma ArraysMayShareAKey(format: seq<string> -> string, a: SubkeyArray, n: int)
    ensures FormatKey(format, a + [Int(n)]) == FormatKey(format, a + [Str(IntText(n))])
    ensures a + [Int(n)] != a + [Str(IntText(n))]
  {
    KeysCoincideIff(format, [], a + [Int(n)], a + [Str(IntText(n))]);
    assert (a + [Int(n)])[|a|] != (a + [Str(IntText(n))])[|a|];
  }
}
