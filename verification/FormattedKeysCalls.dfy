/**
  The calls behind the runs of `FormattedKeys`: what a call returns is for the subkeys it
  was made with, a call left to run by itself returns, and a thread that erased an array
  looks it up in the global map again.
 */
module FormattedKeysCalls {
  import opened Decimals
  import opened FormattedKeys
  import opened FormattedKeysProof

  // ----- the call of a result -----

  /** In a call for a subkey array. */
  predicate CallsAt(s: State, t: nat, subkeys: SubkeyArray) {
    t < |s.threads| && s.threads[t].pc != Idle && s.threads[t].pc.subkeys == subkeys
  }

  /** It has ended, with or without a result for its own subkeys, or is in progress. */
  predicate Stays(s: State, s': State, t: nat) {
    && t < |s.threads| && |s'.threads| == |s.threads| && s'.threads == s.threads[t := s'.threads[t]]
    && var pc, pc' := s.threads[t].pc, s'.threads[t].pc;
       && (pc' == Idle || (pc != Idle && pc'.subkeys == pc.subkeys))
       && (s'.returned == s.returned
           || (pc' == Idle && pc != Idle && |s'.returned| == |s.returned| + 1
               && var r := s'.returned[|s.returned|];
                  s'.returned == s.returned + [r] && r.thread == t && r.subkeys == pc.subkeys))
  }

  lemma AnswerStays(setup: Setup, s: State, t: nat, slot: Slot)
    requires t < |s.threads| && s.threads[t].pc != Idle
    ensures Stays(s, Answer(setup, s, t, s.threads[t].pc.subkeys, slot), t)
  {
    hide Hash;
  }

  lemma FillStays(setup: Setup, s: State, t: nat, throws: bool)
    requires t < |s.threads| && s.threads[t].pc.Fill?
    ensures Stays(s, NextStep(setup, s, t, throws), t)
  {
    hide Hash;
  }

  lemma StepStays(setup: Setup, s: State, t: nat, throws: bool)
    requires t < |s.threads|
    ensures Stays(s, NextStep(setup, s, t, throws), t)
  {
    if s.threads[t].pc.Fill? {
      hide Stays, NextStep;
      FillStays(setup, s, t, throws);
    } else {
      hide Find, FormatKey, LastHit, Answer;
      if s.threads[t].pc.Lookup? {
        var th := s.threads[t];
        if th.last.Last? {
          AnswerStays(setup, s, t, Slot(th.last.ref, th.last.key, th.last.cached));
        }
        if th.pc.subkeys in th.slots {
          AnswerStays(setup, s, t, th.slots[th.pc.subkeys]);
        }
      }
    }
  }

  /** A call begins with that action, and in no other way. */
  lemma CallBegins(setup: Setup, s: State, a: Action, t: nat, subkeys: SubkeyArray)
    requires CallsAt(Next(setup, s, a), t, subkeys)
    ensures CallsAt(s, t, subkeys) || (a == Get(t, subkeys) && t < |s.threads| && s.threads[t].pc == Idle)
  {
    hide NextStep;
    if a.Step? && a.t < |s.threads| {
      StepStays(setup, s, a.t, a.throws);
    }
  }

  lemma ReturnsFromCall(setup: Setup, s: State, a: Action)
    requires Next(setup, s, a).returned != s.returned
    ensures var s' := Next(setup, s, a);
      && |s'.returned| == |s.returned| + 1
      && var r := s'.returned[|s.returned|];
         s'.returned == s.returned + [r] && CallsAt(s, r.thread, r.subkeys)
         && a.Step? && a.t == r.thread && s'.threads[r.thread].pc == Idle
  {
    hide NextStep;
    if a.Step? && a.t < |s.threads| {
      StepStays(setup, s, a.t, a.throws);
    }
  }

  lemma NoCallAtFirst(t: nat, subkeys: SubkeyArray)
    ensures !CallsAt(INIT, t, subkeys)
  {}

  /** The action that began the call a thread is in. */
  lemma {:induction false} CallOf(setup: Setup, acts: seq<Action>, t: nat, subkeys: SubkeyArray) returns (b: nat)
    requires CallsAt(Run(setup, acts), t, subkeys)
    ensures b < |acts| && acts[b] == Get(t, subkeys)
    ensures t < |Run(setup, acts[..b]).threads| && Run(setup, acts[..b]).threads[t].pc == Idle
    ensures forall j :: b < j <= |acts| ==> CallsAt(Run(setup, acts[..j]), t, subkeys)
  {
    hide Next, CallsAt;
    NoCallAtFirst(t, subkeys);
    var n := |acts| - 1;
    assert acts[..|acts|] == acts;
    CallBegins(setup, Run(setup, acts[..n]), acts[n], t, subkeys);
    if CallsAt(Run(setup, acts[..n]), t, subkeys) {
      b := CallOf(setup, acts[..n], t, subkeys);
      forall j | 0 <= j <= n ensures acts[..n][..j] == acts[..j] {}
    } else {
      b := n;
    }
  }

  /** The step that returned a result. */
  lemma {:induction false} StepOf(setup: Setup, acts: seq<Action>, i: nat) returns (k: nat)
    requires i < |Run(setup, acts).returned|
    ensures k < |acts| && |Run(setup, acts[..k]).returned| == i && |Run(setup, acts[..k + 1]).returned| == i + 1
    ensures var r := Run(setup, acts).returned[i];
      CallsAt(Run(setup, acts[..k]), r.thread, r.subkeys)
  {
    hide Next, CallsAt;
    var n := |acts| - 1;
    var s := Run(setup, acts[..n]);
    assert acts[..|acts|] == acts;
    if Run(setup, acts).returned != s.returned {
      ReturnsFromCall(setup, s, acts[n]);
    }
    if i < |s.returned| {
      k := StepOf(setup, acts[..n], i);
      forall j | 0 <= j <= n ensures acts[..n][..j] == acts[..j] {}
    } else {
      k := n;
    }
  }

  /**
    Every result of a run is that of a call: made by `acts[b]`, in progress from then on to
    the step `acts[k]`, and with the format of the subkeys of that very call.
   */
  lemma ReturnAnswersItsCall(setup: Setup, acts: seq<Action>, i: nat) returns (b: nat, k: nat)
    requires i < |Run(setup, acts).returned|
    ensures b < k < |acts|
    ensures |Run(setup, acts[..k]).returned| == i && |Run(setup, acts[..k + 1]).returned| == i + 1
    ensures var r := Run(setup, acts).returned[i];
      && acts[b].Get? && acts[b].t == r.thread && acts[b].subkeys == r.subkeys
      && r.thread < |Run(setup, acts[..b]).threads| && Run(setup, acts[..b]).threads[r.thread].pc == Idle
      && (forall j :: b < j <= k ==> CallsAt(Run(setup, acts[..j]), r.thread, r.subkeys))
      && r.key == FormatKey(setup.format, acts[b].subkeys) && r.cachedFor == r.key
  {
    hide Run, CallsAt, FormatKey;
    k := StepOf(setup, acts, i);
    var r := Run(setup, acts).returned[i];
    b := CallOf(setup, acts[..k], r.thread, r.subkeys);
    forall j | 0 <= j <= k ensures acts[..k][..j] == acts[..j] {}
    ReturnsItsOwnFormat(setup, acts, i);
  }

  // ----- a call by itself -----

  lemma OneMore(setup: Setup, acts: seq<Action>, a: Action)
    ensures Run(setup, acts + [a]) == Next(setup, Run(setup, acts), a)
  {
    hide Next;
    assert (acts + [a])[..|acts|] == acts;
  }

  function StepsLeft(pc: Pc): nat {
    match pc
    case Idle => 0
    case Fill(_, _) => 1 case Emplace(_) => 2 case Prepare(_) => 3 case Upgraded(_) => 4
    case WaitUpgrade(_) => 5 case Shared(_) => 6 case Lookup(_) => 7
  }

  /** No other thread holds the upgrade lock. */
  predicate Alone(s: State, t: nat) {
    forall u :: 0 <= u < |s.threads| && u != t ==> !HoldsUpgrade(s.threads[u].pc)
  }

  /** One step: nearer the return and nothing returned, or returned and remembered. */
  predicate Advances(setup: Setup, s: State, s': State, t: nat, subkeys: SubkeyArray) {
    && t < |s.threads| && t < |s'.threads| && Alone(s', t)
    && StepsLeft(s'.threads[t].pc) < StepsLeft(s.threads[t].pc)
    && if s'.threads[t].pc == Idle then s'.returned != s.returned && LastHit(setup, s', s'.threads[t].last, subkeys)
       else s'.returned == s.returned && CallsAt(s', t, subkeys)
  }

  lemma CallAdvances(setup: Setup, s: State, t: nat)
    requires Inv(setup, s) && t < |s.threads| && s.threads[t].pc != Idle && Alone(s, t)
    ensures Advances(setup, s, Next(setup, s, Step(t, false)), t, s.threads[t].pc.subkeys)
  {
    hide Find, Hash, FormatKey, NodesOk, CallsOk, OneUpgrade;
    assert ThreadOk(setup, s, s.threads[t]);
    StepStays(setup, s, t, false);
    if s.threads[t].pc.Lookup? && s.threads[t].last.Last? && s.threads[t].last.ref < |s.nodes| {
      var a := s.nodes[s.threads[t].last.ref].subkeys;
      assert SlotOk(s, a, s.threads[t].slots[a]);
    }
  }

  predicate ThreadOnly(more: seq<Action>, t: nat) {
    forall i :: 0 <= i < |more| ==> more[i] == Step(t, false)
  }

  /** The call has returned the format of its subkeys, with an object cached for it, and its thread remembers it. */
  predicate Returns(setup: Setup, s: State, s': State, t: nat, subkeys: SubkeyArray) {
    var key := FormatKey(setup.format, subkeys);
    && t < |s'.threads| && s'.threads[t].pc == Idle && s'.returned == s.returned + [Return(t, subkeys, key, key)]
    && LastHit(setup, s', s'.threads[t].last, subkeys)
  }

  lemma {:induction false} CallFinishes(setup: Setup, acts: seq<Action>, t: nat, subkeys: SubkeyArray)
    returns (more: seq<Action>)
    requires CallsAt(Run(setup, acts), t, subkeys) && Alone(Run(setup, acts), t)
    ensures ThreadOnly(more, t) && |more| <= StepsLeft(Run(setup, acts).threads[t].pc)
    ensures Returns(setup, Run(setup, acts), Run(setup, acts + more), t, subkeys)
    decreases if CallsAt(Run(setup, acts), t, subkeys) then StepsLeft(Run(setup, acts).threads[t].pc) else 0
  {
    hide Run, Next, Inv, StepsLeft, Alone, FormatKey;
    var s := Run(setup, acts);
    RunKeeps(setup, acts);
    CallAdvances(setup, s, t);
    OneMore(setup, acts, Step(t, false));
    var s1 := Run(setup, acts + [Step(t, false)]);
    if s1.threads[t].pc == Idle {
      more := [Step(t, false)];
      ReturnsFromCall(setup, s, Step(t, false));
      ReturnsItsOwnFormat(setup, acts + more, |s.returned|);
    } else {
      var rest := CallFinishes(setup, acts + [Step(t, false)], t, subkeys);
      more := [Step(t, false)] + rest;
      assert acts + more == acts + [Step(t, false)] + rest;
    }
  }

  /**
    A call, from any state of a run in which no other thread has the upgrade lock: by
    itself, with nothing thrown, it returns in seven steps.
   */
  lemma GetReturns(setup: Setup, acts: seq<Action>, t: nat, subkeys: SubkeyArray) returns (more: seq<Action>)
    requires t < |Run(setup, acts).threads| && Run(setup, acts).threads[t].pc == Idle && Alone(Run(setup, acts), t)
    ensures ThreadOnly(more, t) && |more| <= 7
    ensures Returns(setup, Run(setup, acts), Run(setup, acts + [Get(t, subkeys)] + more), t, subkeys)
  {
    hide Run, FormatKey;
    OneMore(setup, acts, Get(t, subkeys));
    more := CallFinishes(setup, acts + [Get(t, subkeys)], t, subkeys);
  }

  /**
    The array that a thread got last it gets again, from any state of a run, in one step of
    its own: neither the global map, nor its lock, nor prepareKey is touched.
   */
  lemma LastIsGotAtOnce(setup: Setup, acts: seq<Action>, t: nat, subkeys: SubkeyArray, throws: bool)
    requires t < |Run(setup, acts).threads| && Run(setup, acts).threads[t].pc == Idle
    requires LastHit(setup, Run(setup, acts), Run(setup, acts).threads[t].last, subkeys)
    ensures var s, s' := Run(setup, acts), Run(setup, acts + [Get(t, subkeys)] + [Step(t, throws)]);
      var key := FormatKey(setup.format, subkeys);
      && s'.returned == s.returned + [Return(t, subkeys, key, key)]
      && s'.threads == s.threads && s'.nodes == s.nodes && s'.cached == s.cached && s'.prepared == s.prepared
  {
    hide Run, Hash, Find, FormatKey, CallsOk, OneUpgrade;
    var s := Run(setup, acts);
    RunKeeps(setup, acts);
    assert ThreadOk(setup, s, s.threads[t]);
    var last := s.threads[t].last;
    assert SlotOk(s, subkeys, s.threads[t].slots[subkeys]);
    OneMore(setup, acts, Get(t, subkeys));
    OneMore(setup, acts + [Get(t, subkeys)], Step(t, throws));
    var s' := Run(setup, acts + [Get(t, subkeys)] + [Step(t, throws)]);
    assert s.nodes[last.key].key == FormatKey(setup.format, subkeys);
    assert s'.threads == s.threads;
  }

  /** After forgetting an array a thread finds it, next time, in neither its last item nor its own map. */
  lemma ErasedIsLookedUpAgain(setup: Setup, acts: seq<Action>, t: nat, subkeys: SubkeyArray, throws: bool)
    requires t < |Run(setup, acts).threads| && Run(setup, acts).threads[t].pc == Idle
    ensures var erased := acts + [Erase(t, subkeys)];
      var s, s' := Run(setup, acts), Run(setup, erased + [Get(t, subkeys)] + [Step(t, throws)]);
      && s' == s.(threads := s'.threads) && |s'.threads| == |s.threads|
      && (forall u :: 0 <= u < |s.threads| && u != t ==> s'.threads[u] == s.threads[u])
      && s'.threads[t].pc == Shared(subkeys) && s'.threads[t].slots == s.threads[t].slots - {subkeys}
  {
    hide Run, Hash, Find, FormatKey;
    OneMore(setup, acts, Erase(t, subkeys));
    OneMore(setup, acts + [Erase(t, subkeys)], Get(t, subkeys));
    OneMore(setup, acts + [Erase(t, subkeys)] + [Get(t, subkeys)], Step(t, throws));
  }
}
