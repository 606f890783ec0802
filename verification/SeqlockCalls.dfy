/**
  The calls behind the runs of `Seqlock`: the history is what addValue() was called with,
  and a call left to run by itself returns.
 */
module SeqlockCalls {
  import opened Words
  import opened History
  import opened Seqlock
  import opened SeqlockProof

  // ----- the history and the calls -----

  /**
    addValue() may be called: no call of it is in progress, the arguments are of the type,
    and there is room in the count.
   */
  predicate MayAdd(s: State, u: Update) {
    s.adder.pc == Idle && Typed(s.W, u) && |s.h| + 1 < TWO63
  }

  /** The arguments of the addValue() calls of a run, in order. */
  function Called(W: int, n: nat, acts: seq<Action>): seq<Update>
    requires Width(W)
  {
    if acts == [] then []
    else
      var before, a := acts[..|acts| - 1], acts[|acts| - 1];
      Called(W, n, before) + if a.AddValue? && MayAdd(Run(W, n, before), a.u) then [a.u] else []
  }

  /** The call in progress, if there is one. */
  function InProgress(s: State): seq<Update> {
    if s.adder.pc == Idle then [] else [s.adder.u]
  }

  lemma StepKeepsCalls(s: State, a: Action)
    requires Width(s.W)
    ensures var s' := Next(s, a);
      s'.h + InProgress(s') == s.h + InProgress(s) + if a.AddValue? && MayAdd(s, a.u) then [a.u] else []
  {
    hide LowSum, Wraps, StepCarry, DrainedSum, DrainedCount, NextRead;
    if a.DrainerStep? {
      DrainersLeaveAdder(s, a);
    }
  }

  lemma DrainersLeaveAdder(s: State, a: Action)
    requires Width(s.W) && a.DrainerStep?
    ensures Next(s, a).h == s.h && Next(s, a).adder == s.adder
  {
    hide NextAdder, DrainedSum, DrainedCount, NextRead;
  }

  /** In every run the history is, in order, what addValue() was called with, less the call in progress. */
  lemma {:induction false} HistoryIsTheCalls(W: int, n: nat, acts: seq<Action>)
    requires Width(W)
    ensures var s := Run(W, n, acts);
      Called(W, n, acts) == s.h + InProgress(s)
  {
    hide Next, MayAdd, InProgress;
    if acts == [] {
      assert InProgress(Init(W, n)) == [] by { NoCallAtFirst(W, n); }
    } else {
      HistoryIsTheCalls(W, n, acts[..|acts| - 1]);
      StepKeepsCalls(Run(W, n, acts[..|acts| - 1]), acts[|acts| - 1]);
    }
  }

  lemma NoCallAtFirst(W: int, n: nat)
    ensures InProgress(Init(W, n)) == []
  {}

  // ----- a call by itself -----

  lemma OneMore(W: int, n: nat, acts: seq<Action>, a: Action)
    requires Width(W)
    ensures Run(W, n, acts + [a]) == Next(Run(W, n, acts), a)
  {
    hide Next;
    assert (acts + [a])[..|acts|] == acts;
  }

  /** How many steps addValue() has left, at most. */
  function StepsLeft(pc: AdderPc): nat {
    match pc
    case Idle => 0
    case StoreEven => 1
    case StoreSumHi => 2 case LoadSumHi => 3 case StoreSumLo => 4 case LoadSumLo => 5
    case StoreSurplusHi => 6 case LoadSurplusHi => 7 case StoreSurplusLo => 8 case LoadSurplusLo => 9
    case StoreOdd => 10 case Allocate => 11 case LoadBlock => 12
  }

  lemma AdderAdvances(s: State)
    requires Width(s.W) && s.adder.pc != Idle
    ensures var s' := NextAdder(s);
      && StepsLeft(s'.adder.pc) < StepsLeft(s.adder.pc) && s'.log == s.log
      && (s'.adder.pc != Idle ==> s'.adder.u == s.adder.u && s'.h == s.h)
      && (s'.adder.pc == Idle ==> s'.h == s.h + [s.adder.u])
  {
    hide LowSum, Wraps, StepCarry;
  }

  predicate AdderOnly(more: seq<Action>) {
    forall i :: 0 <= i < |more| ==> more[i] == AdderStep
  }

  lemma {:induction false} AdderFinishes(W: int, n: nat, acts: seq<Action>) returns (more: seq<Action>)
    requires Width(W) && Run(W, n, acts).adder.pc != Idle
    ensures AdderOnly(more) && |more| <= StepsLeft(Run(W, n, acts).adder.pc)
    ensures var s, s' := Run(W, n, acts), Run(W, n, acts + more);
      s'.adder.pc == Idle && s'.h == s.h + [s.adder.u]
    decreases StepsLeft(Run(W, n, acts).adder.pc)
  {
    hide NextAdder, Run;
    OneMore(W, n, acts, AdderStep);
    AdderAdvances(Run(W, n, acts));
    if Run(W, n, acts + [AdderStep]).adder.pc == Idle {
      more := [AdderStep];
    } else {
      var rest := AdderFinishes(W, n, acts + [AdderStep]);
      more := [AdderStep] + rest;
      assert acts + more == acts + [AdderStep] + rest;
    }
  }

  /**
    addValue(), from any state of a run: it takes at most twelve steps, and its arguments
    are what is added, the count, too.
   */
  lemma AddValueReturns(W: int, n: nat, acts: seq<Action>, u: Update) returns (more: seq<Action>)
    requires Width(W) && MayAdd(Run(W, n, acts), u)
    ensures AdderOnly(more) && |more| <= 12
    ensures var s, s' := Run(W, n, acts), Run(W, n, acts + [AddValue(u)] + more);
      s'.adder.pc == Idle && s'.h == s.h + [u]
  {
    hide Run, NextAdder;
    OneMore(W, n, acts, AddValue(u));
    more := AdderFinishes(W, n, acts + [AddValue(u)]);
  }

  // ----- a reset by itself -----

  /** How many steps reset() has left when nothing interferes, at most. */
  function DrainStepsLeft(pc: DrainPc): nat {
    match pc
    case Out => 0
    case Release => 1
    case StoreBaseHi => 2 case StoreBaseLo => 3
    case StoreSurplusBaseHi => 4 case StoreSurplusBaseLo => 5
    case LoadSurplusBaseHi => 6 case LoadSurplusBaseLo => 7
    case Confirm => 8 case ReadSumHi => 9 case ReadSumLo => 10
    case ReadSurplusHi => 11 case ReadSurplusLo => 12 case ReadBlock => 13 case ReadSeq => 14
    case LoadBaseHi => 15 case LoadBaseLo => 16
    case Claim => 17 case LoadLast => 18 case CheckLast => 19 case CheckSeq => 19
  }

  /** Nothing interferes: no update is in progress and no other drainer holds the claim. */
  predicate Alone(s: State, t: nat)
    requires t < |s.drainers|
  {
    var d := s.drainers[t];
    && s.adder.pc == Idle && s.holder in {NOBODY, t}
    && (d.pc == CheckLast ==> d.seen == s.mem.seqNo)
    && (d.pc == CheckSeq ==> Masked(d.seen) == 2 * Mark(s))
    && (d.pc == Claim ==> d.last == s.mem.lastSeq)
    && (Rank(d.pc) >= 7 ==> d.before == s.mem.seqNo)
  }

  /** A returned window that ends with the last update. */
  predicate EndsAtTheLast(s: State, s': State) {
    && |s'.log| == |s.log| + 1 && s'.log[..|s.log|] == s.log
    && s'.log[|s.log|].to == |s'.h| && s'.h == s.h
  }

  lemma IdleCounts(s: State)
    requires Inv(s) && s.adder.pc == Idle
    ensures s.mem.seqNo == 2 * |s.h|
  {
    hide At;
  }

  lemma ClaimParity(s: State, t: nat)
    requires Inv(s) && t < |s.drainers|
    ensures !Holds(s.drainers[t].pc) ==> s.holder != t
    ensures Holds(s.drainers[t].pc) ==> s.holder == t
    ensures s.holder == NOBODY ==> s.mem.lastSeq % 2 == 0
  {
    hide AdderInv, BaselineInv, DrainersInv, LogInv;
  }

  lemma ClaimAdvances(s: State, t: nat)
    requires Inv(s) && t < |s.drainers| && Alone(s, t) && s.drainers[t].pc in {CheckLast, CheckSeq, LoadLast, Claim}
    ensures Advances(s, NextClaim(s, t, false), t)
  {
    hide Inv;
    IdleCounts(s);
    ClaimParity(s, t);
  }

  /** One step: nearer the return and still alone, or returned with a window up to the last update. */
  predicate Advances(s: State, s': State, t: nat)
    requires t < |s.drainers|
  {
    && t < |s'.drainers| && s'.h == s.h && s'.adder == s.adder
    && DrainStepsLeft(s'.drainers[t].pc) < DrainStepsLeft(s.drainers[t].pc)
    && (if s'.drainers[t].pc == Out then EndsAtTheLast(s, s') else s'.log == s.log && Alone(s', t))
  }

  lemma ReadAdvances(s: State, t: nat)
    requires Inv(s) && t < |s.drainers| && Alone(s, t) && 4 <= Rank(s.drainers[t].pc) <= 12
    ensures Advances(s, Put(s, t, NextRead(s.mem, s.drainers[t])), t)
  {
    hide Inv;
    IdleCounts(s);
  }

  lemma StoreAdvances(s: State, t: nat)
    requires Width(s.W) && t < |s.drainers| && Alone(s, t) && 13 <= Rank(s.drainers[t].pc) <= 18
    ensures Advances(s, NextPublish(s, t), t)
  {
    hide Masked;
  }

  lemma ReleaseAdvances(s: State, t: nat)
    requires Width(s.W) && t < |s.drainers| && Alone(s, t) && s.drainers[t].pc == Release && s.mem.seqNo == 2 * |s.h|
    ensures Advances(s, NextPublish(s, t), t)
  {
    hide DrainedSum, DrainedCount;
    var s', d := NextPublish(s, t), s.drainers[t];
    var calls := (d.before - d.last) % TWO64 / 2;
    assert s'.log == s.log + [Return(DrainedCount(s.W, d.surplus, d.baseSurplus, calls), DrainedSum(s.W, d.sum, d.base),
                                     d.last / 2, d.before / 2, d.started)];
  }

  lemma PublishAdvances(s: State, t: nat)
    requires Inv(s) && t < |s.drainers| && Alone(s, t) && Rank(s.drainers[t].pc) >= 13
    ensures Advances(s, NextPublish(s, t), t)
  {
    hide Inv, NextPublish, Advances;
    InvParts(s);
    IdleCounts(s);
    if s.drainers[t].pc == Release {
      ReleaseAdvances(s, t);
    } else {
      StoreAdvances(s, t);
    }
  }

  lemma DrainerAdvances(s: State, t: nat)
    requires Inv(s) && t < |s.drainers| && Alone(s, t) && s.drainers[t].pc != Out
    ensures Width(s.W) && Advances(s, Next(s, DrainerStep(t, false)), t)
  {
    InvParts(s);
    hide Inv, Advances, Alone, NextClaim, NextRead, NextPublish;
    var r := Rank(s.drainers[t].pc);
    if r <= 3 {
      ClaimAdvances(s, t);
    } else if r <= 12 {
      ReadAdvances(s, t);
    } else {
      PublishAdvances(s, t);
    }
  }

  predicate DrainerOnly(more: seq<Action>, t: nat) {
    forall i :: 0 <= i < |more| ==> more[i] == DrainerStep(t, false)
  }

  lemma {:induction false} DrainerFinishes(W: int, n: nat, acts: seq<Action>, t: nat) returns (more: seq<Action>)
    requires Width(W) && t < |Run(W, n, acts).drainers|
    requires Run(W, n, acts).drainers[t].pc != Out && Alone(Run(W, n, acts), t)
    ensures DrainerOnly(more, t) && |more| <= DrainStepsLeft(Run(W, n, acts).drainers[t].pc)
    ensures var s, s' := Run(W, n, acts), Run(W, n, acts + more);
      t < |s'.drainers| && s'.drainers[t].pc == Out && EndsAtTheLast(s, s')
    decreases DrainStepsLeft(Run(W, n, acts).drainers[t].pc)
  {
    hide Run, Next, Alone, Inv;
    RunInv(W, n, acts);
    OneMore(W, n, acts, DrainerStep(t, false));
    DrainerAdvances(Run(W, n, acts), t);
    if Run(W, n, acts + [DrainerStep(t, false)]).drainers[t].pc == Out {
      more := [DrainerStep(t, false)];
    } else {
      var rest := DrainerFinishes(W, n, acts + [DrainerStep(t, false)], t);
      more := [DrainerStep(t, false)] + rest;
      assert acts + more == acts + [DrainerStep(t, false)] + rest;
    }
  }

  /**
    reset(), its two first loads in either order, from any state of a run with no update in
    progress and the claim free: by itself it returns within nineteen steps, with a window
    that ends with the last update.
   */
  lemma ResetReturns(W: int, n: nat, acts: seq<Action>, t: nat, lastFirst: bool) returns (more: seq<Action>)
    requires Width(W) && t < |Run(W, n, acts).drainers|
    requires var s := Run(W, n, acts); s.drainers[t].pc == Out && s.adder.pc == Idle && s.holder == NOBODY
    ensures DrainerOnly(more, t) && |more| <= 19
    ensures var s, s' := Run(W, n, acts), Run(W, n, acts + [Reset(t, lastFirst)] + more);
      t < |s'.drainers| && s'.drainers[t].pc == Out && EndsAtTheLast(s, s')
  {
    hide Run, Inv, NextAdder, NextClaim, NextPublish, NextRead;
    OneMore(W, n, acts, Reset(t, lastFirst));
    RunInv(W, n, acts);
    ClaimParity(Run(W, n, acts), t);
    more := DrainerFinishes(W, n, acts + [Reset(t, lastFirst)], t);
  }
}
