/**
  The calls behind the runs of `Registry`: what constructing, moving and assigning stats
  does to their links and global stats, where each update that was given is accounted, and
  what link(), unlink() and a sweep do when they are left to run by themselves.
 */
module RegistryCalls {
  import opened Words
  import opened History
  import opened Registry
  import opened RegistryProof
  import opened Conservation

  // ----- what moves and assignments do -----

  /** An assignment that takes place: two different stats at rest, of one class. */
  predicate MayAssign(s: State, x: nat, y: nat) {
    x != y && Resting(s, x) && Resting(s, y)
    && s.ledgers[s.stats[x].ledger].kind == s.ledgers[s.stats[y].ledger].kind
  }

  /** The stats but for those named, every registration and every global stat are as they were. */
  ghost predicate OnlyStats(s: State, s': State, changed: set<nat>) {
    && s'.ledgers == s.ledgers && s'.failed == s.failed
    && |s'.stats| >= |s.stats| && |s'.links| == |s.links|
    && (forall z: nat :: z < |s.stats| && z !in changed ==> s'.stats[z] == s.stats[z])
    && (forall l :: 0 <= l < |s.links| ==>
          s'.links[l].(refs := s.links[l].refs, freed := s.links[l].freed) == s.links[l])
  }

  /**
    `x = std::move(y)`: x has y's link and global stat, y keeps its link and has x's global
    stat, both are at rest with nothing given, and nothing else changes but reference counts.
   */
  lemma AssignmentSwaps(acts: seq<Action>, x: nat, y: nat)
    requires MayAssign(Run(acts), x, y)
    ensures var s, s' := Run(acts), Run(acts + [MoveAssign(x, y)]);
      && OnlyStats(s, s', {x, y}) && |s'.stats| == |s.stats| && Resting(s', x) && Resting(s', y)
      && s'.stats[x].link == s.stats[y].link && s'.stats[x].ledger == s.stats[y].ledger
      && s'.stats[y].link == s.stats[y].link && s'.stats[y].ledger == s.stats[x].ledger
      && s'.stats[x].history == [] && s'.stats[y].history == []
  {
    hide Run;
    OneMore(acts, MoveAssign(x, y));
  }

  /** A new stat from an old one: it has that one's link and global stat, is at rest and has been given nothing. */
  lemma MoveConstructs(acts: seq<Action>, x: nat)
    requires StatAt(Run(acts), x)
    ensures var s, s' := Run(acts), Run(acts + [MoveConstruct(x)]);
      && OnlyStats(s, s', {}) && |s'.stats| == |s.stats| + 1 && Resting(s', |s.stats|)
      && s'.stats[|s.stats|].link == s.stats[x].link && s'.stats[|s.stats|].ledger == s.stats[x].ledger
      && s'.stats[|s.stats|].history == []
  {
    hide Run;
    OneMore(acts, MoveConstruct(x));
  }

  /** A new stat of a container, for a global stat. */
  lemma Constructs(acts: seq<Action>, l: nat, g: nat)
    requires l < |Run(acts).links| && Run(acts).links[l].alive && Run(acts).links[l].holder != Destroyer
    requires g < |Run(acts).ledgers|
    ensures var s, s' := Run(acts), Run(acts + [Construct(l, g)]);
      && OnlyStats(s, s', {}) && |s'.stats| == |s.stats| + 1 && Resting(s', |s.stats|)
      && s'.stats[|s.stats|].link == l && s'.stats[|s.stats|].ledger == g
      && s'.stats[|s.stats|].history == []
  {
    hide Run;
    OneMore(acts, Construct(l, g));
  }

  /** A stat at rest is destroyed: it exists no more, and drops its reference. */
  lemma Destroys(acts: seq<Action>, x: nat)
    requires Resting(Run(acts), x)
    ensures var s, s' := Run(acts), Run(acts + [DestroyStat(x)]);
      && OnlyStats(s, s', {x}) && |s'.stats| == |s.stats| && s'.stats[x] == s.stats[x].(live := false)
      && s'.links[s.stats[x].link].refs == s.links[s.stats[x].link].refs - 1
  {
    hide Run;
    OneMore(acts, DestroyStat(x));
  }

  lemma OneMore(acts: seq<Action>, a: Action)
    ensures Run(acts + [a]) == Next(Run(acts), a)
  {
    hide Next;
    assert (acts + [a])[..|acts|] == acts;
  }

  // ----- where what is given is accounted -----

  /** addValue() may be called: the owner is in no call of it, link() has returned, the arguments are of the type. */
  predicate MayGive(s: State, x: nat, u: Update) {
    StatAt(s, x) && s.stats[x].pc == Idle && s.stats[x].linked && Typed(TWO64, u)
  }

  /** What an action gives to a global stat: the update of an addValue() on a stat of it. */
  function GivenNow(s: State, a: Action, g: nat): Amount {
    if a.AddValue? && MayGive(s, a.x, a.u) && s.stats[a.x].ledger == g then Exact(s.ledgers[g].kind, [a.u])
    else NOTHING
  }

  /** What a run gave a global stat through its stats. */
  function Given(acts: seq<Action>, g: nat): Amount {
    if acts == [] then NOTHING
    else Plus(Given(acts[..|acts| - 1], g), GivenNow(Run(acts[..|acts| - 1]), acts[|acts| - 1], g))
  }

  /** A step adds to a global stat's account what the action gave it, and nothing else. */
  predicate AccountsFor(s: State, a: Action, g: nat) {
    var s' := Next(s, a);
    && |s'.ledgers| >= |s.ledgers|
    && (g < |s.ledgers| ==> s'.ledgers[g].kind == s.ledgers[g].kind
                            && s'.ledgers[g].added == Plus(s.ledgers[g].added, GivenNow(s, a, g)))
    && (|s.ledgers| <= g ==> GivenNow(s, a, g) == NOTHING)
    && (|s.ledgers| <= g < |s'.ledgers| ==> s'.ledgers[g].added == NOTHING)
  }

  lemma AddAccountsFor(s: State, x: nat, u: Update, g: nat)
    ensures AccountsFor(s, AddValue(x, u), g)
  {
    hide Exact;
  }

  predicate MovesStats(a: Action) {
    a.Construct? || a.MoveConstruct? || a.MoveAssign? || a.DestroyStat? || a.ReleaseContainer?
  }

  lemma MoveAccountsFor(s: State, a: Action, g: nat)
    requires MovesStats(a)
    ensures AccountsFor(s, a, g)
  {
    hide Exact, Passed, NextOwner, Drain, Give;
  }

  lemma StepAccountsFor(s: State, a: Action, g: nat)
    ensures AccountsFor(s, a, g)
  {
    if a.AddValue? {
      hide AccountsFor;
      AddAccountsFor(s, a.x, a.u, g);
    } else if a.OwnerStep? {
      hide Exact, Passed, Defer, Register, Unregister;
    } else if MovesStats(a) {
      hide AccountsFor;
      MoveAccountsFor(s, a, g);
    } else {
      hide Exact, Passed, NextOwner, Drain, Give, Replace, IncRef, DecRef;
    }
  }

  /** In every run the account of a global stat is what was given to its stats while they were its. */
  lemma {:induction false} AccountIsWhatWasGiven(acts: seq<Action>, g: nat)
    ensures if g < |Run(acts).ledgers| then Run(acts).ledgers[g].added == Given(acts, g) else Given(acts, g) == NOTHING
  {
    hide Next, GivenNow, Plus;
    if acts != [] {
      var before, a := acts[..|acts| - 1], acts[|acts| - 1];
      AccountIsWhatWasGiven(before, g);
      StepAccountsFor(Run(before), a, g);
      assert Plus(NOTHING, NOTHING) == NOTHING by { PlusNothing(NOTHING, NOTHING); }
    }
  }

  /**
    An assignment that takes place and has the stat on either side; the stat is at rest, so
    an unlink() came before.
   */
  predicate Reassigns(s: State, a: Action, x: nat) {
    a.MoveAssign? && MayAssign(s, a.x, a.y) && (x == a.x || x == a.y)
  }

  /** From the end of a run on, no assignment that takes place has the stat on either side. */
  predicate Unassigned(acts: seq<Action>, more: seq<Action>, x: nat) {
    forall i :: 0 <= i < |more| ==> !Reassigns(Run(acts + more[..i]), more[i], x)
  }

  /** What the action gives the stat. */
  function GivenBy(s: State, a: Action, x: nat): seq<Update> {
    if a.AddValue? && a.x == x && MayGive(s, x, a.u) then [a.u] else []
  }

  /** What the stat is given from the end of a run on. */
  function GivenTo(acts: seq<Action>, more: seq<Action>, x: nat): seq<Update> {
    if more == [] then []
    else
      var before, a := more[..|more| - 1], more[|more| - 1];
      GivenTo(acts, before, x) + GivenBy(Run(acts + before), a, x)
  }

  /** What a run gave a global stat through one of its stats. */
  function Through(acts: seq<Action>, x: nat, g: nat): Amount {
    if acts == [] then NOTHING
    else
      var before, a := acts[..|acts| - 1], acts[|acts| - 1];
      if a.AddValue? && a.x == x then Plus(Through(before, x, g), GivenNow(Run(before), a, g))
      else Through(before, x, g)
  }

  /** A stat keeps its link and its global stat, of the same kind, but for an assignment. */
  predicate KeepsBinding(s: State, a: Action, x: nat) {
    var s' := Next(s, a);
    && x < |s.stats| && x < |s'.stats| && |s.ledgers| <= |s'.ledgers|
    && s'.stats[x].ledger == s.stats[x].ledger < |s.ledgers|
    && s'.stats[x].link == s.stats[x].link
    && s'.ledgers[s.stats[x].ledger].kind == s.ledgers[s.stats[x].ledger].kind
    && s'.stats[x].history == s.stats[x].history + GivenBy(s, a, x)
  }

  lemma AddKeepsBinding(s: State, y: nat, u: Update, x: nat)
    requires AllOk(s) && x < |s.stats|
    ensures KeepsBinding(s, AddValue(y, u), x)
  {
    hide Exact, LinkOk;
    assert StatOk(s, x);
  }

  lemma OwnerKeepsBinding(s: State, y: nat, fails: bool, x: nat)
    requires AllOk(s) && x < |s.stats|
    ensures KeepsBinding(s, OwnerStep(y, fails), x)
  {
    hide Defer, Register, Unregister, LinkOk;
    assert StatOk(s, x);
    if StatAt(s, y) {
      OwnerEndsKeep(EndsOf(s, y), y, fails);
    }
  }

  lemma OwnerEndsKeep(e: Ends, x: nat, fails: bool)
    ensures SameDebt(e.st, Defer(e, x, fails).st) && Defer(e, x, fails).st.link == e.st.link
    ensures SameDebt(e.st, Register(e, x).st) && Register(e, x).st.link == e.st.link
    ensures SameDebt(e.st, Unregister(e, x).st) && Unregister(e, x).st.link == e.st.link
  {}

  lemma MoveKeepsBinding(s: State, a: Action, x: nat)
    requires AllOk(s) && x < |s.stats| && !Reassigns(s, a, x) && MovesStats(a)
    ensures KeepsBinding(s, a, x)
  {
    hide LinkOk, NextOwner, Drain, Exact, Passed, Give, TakeWindow, Pay;
    assert StatOk(s, x);
  }

  lemma WindowKeepsBinding(s: State, a: Action, x: nat)
    requires AllOk(s) && x < |s.stats| && (a.OwnerTake? || a.SweepTake? || a.SweepDeposit?)
    ensures KeepsBinding(s, a, x)
  {
    hide LinkOk, NextOwner, Drain, Exact, Passed, Give, Replace, IncRef, DecRef;
    assert StatOk(s, x);
  }

  lemma StepKeepsBinding(s: State, a: Action, x: nat)
    requires AllOk(s) && x < |s.stats| && !Reassigns(s, a, x)
    ensures KeepsBinding(s, a, x)
  {
    hide LinkOk, KeepsBinding, Reassigns;
    if a.AddValue? {
      AddKeepsBinding(s, a.x, a.u, x);
    } else if a.OwnerStep? {
      OwnerKeepsBinding(s, a.x, a.fails, x);
    } else if MovesStats(a) {
      MoveKeepsBinding(s, a, x);
    } else if a.OwnerTake? || a.SweepTake? || a.SweepDeposit? {
      WindowKeepsBinding(s, a, x);
    } else {
      LockKeepsBinding(s, a, x);
    }
  }

  lemma LockKeepsBinding(s: State, a: Action, x: nat)
    requires AllOk(s) && x < |s.stats| && !MovesStats(a) && !a.AddValue? && !a.OwnerStep?
    requires !a.OwnerTake? && !a.SweepTake? && !a.SweepDeposit?
    ensures KeepsBinding(s, a, x)
  {
    hide LinkOk, NextOwner, Drain, DrainCheckFires, Exact, Passed, Give, Replace, IncRef, DecRef, TakeWindow, Pay;
    assert StatOk(s, x);
  }

  lemma {:induction false} BindingStays(acts: seq<Action>, more: seq<Action>, x: nat)
    requires x < |Run(acts).stats| && Unassigned(acts, more, x)
    ensures var s, s' := Run(acts), Run(acts + more);
      && x < |s'.stats| && s.stats[x].ledger < |s.ledgers| <= |s'.ledgers|
      && s'.stats[x].link == s.stats[x].link && s'.stats[x].ledger == s.stats[x].ledger
      && s'.ledgers[s.stats[x].ledger].kind == s.ledgers[s.stats[x].ledger].kind
      && s'.stats[x].history == s.stats[x].history + GivenTo(acts, more, x)
  {
    hide Run, Next, MayGive, Reassigns, AllOk, Unassigned, GivenBy;
    RunKeeps(acts);
    LedgersBound(Run(acts));
    if more == [] {
      assert acts + more == acts;
    } else {
      var before, a := more[..|more| - 1], more[|more| - 1];
      UnassignedBefore(acts, more, x);
      BindingStays(acts, before, x);
      RunKeeps(acts + before);
      assert acts + more == acts + before + [a];
      OneMore(acts + before, a);
      StepKeepsBinding(Run(acts + before), a, x);
    }
  }

  lemma ThroughStep(acts: seq<Action>, a: Action, x: nat, g: nat)
    requires x < |Run(acts).stats| && Run(acts).stats[x].ledger < |Run(acts).ledgers|
    ensures var s := Run(acts);
      Through(acts + [a], x, g)
        == Plus(Through(acts, x, g),
                if g == s.stats[x].ledger then Exact(s.ledgers[g].kind, GivenBy(s, a, x)) else NOTHING)
  {
    hide Run, Exact;
    assert (acts + [a])[..|acts|] == acts;
    NothingExact(Run(acts).ledgers[Run(acts).stats[x].ledger].kind);
    PlusNothing(Through(acts, x, g), Through(acts, x, g));
  }

  lemma PlusGrouped(a: Amount, b: Amount, c: Amount)
    ensures Plus(Plus(a, b), c) == Plus(a, Plus(b, c)) && Plus(a, NOTHING) == a
  {}

  lemma UnassignedBefore(acts: seq<Action>, more: seq<Action>, x: nat)
    requires more != [] && Unassigned(acts, more, x)
    ensures Unassigned(acts, more[..|more| - 1], x) && !Reassigns(Run(acts + more[..|more| - 1]), more[|more| - 1], x)
  {
    hide Run, Reassigns;
    var before := more[..|more| - 1];
    forall i | 0 <= i < |before| ensures !Reassigns(Run(acts + before[..i]), before[i], x) {
      assert before[..i] == more[..i] && before[i] == more[i];
    }
  }

  /**
    What a stat is given, for as long as it is not assigned, goes to the account of its
    global stat and to no other.
   */
  lemma {:induction false} GivenGoesToItsLedger(acts: seq<Action>, more: seq<Action>, x: nat, g: nat)
    requires x < |Run(acts).stats| && Unassigned(acts, more, x)
    ensures x < |Run(acts + more).stats| && Run(acts).stats[x].ledger < |Run(acts).ledgers|
    ensures var st := Run(acts).stats[x];
      && Run(acts + more).stats[x].ledger == st.ledger
      && Through(acts + more, x, g)
         == Plus(Through(acts, x, g),
                 if g == st.ledger then Exact(Run(acts).ledgers[g].kind, GivenTo(acts, more, x)) else NOTHING)
  {
    hide Run, MayGive, Unassigned, Exact, Plus, Through;
    BindingStays(acts, more, x);
    var kind := Run(acts).ledgers[Run(acts).stats[x].ledger].kind;
    if more == [] {
      assert acts + more == acts;
      NothingExact(kind);
      PlusGrouped(Through(acts, x, g), NOTHING, NOTHING);
    } else {
      var before, a := more[..|more| - 1], more[|more| - 1];
      UnassignedBefore(acts, more, x);
      GivenGoesToItsLedger(acts, before, x, g);
      BindingStays(acts, before, x);
      assert acts + more == acts + before + [a];
      ThroughStep(acts + before, a, x, g);
      ExactConcat(kind, GivenTo(acts, before, x), GivenBy(Run(acts + before), a, x));
      PlusGrouped(Through(acts, x, g), Exact(kind, GivenTo(acts, before, x)),
                  Exact(kind, GivenBy(Run(acts + before), a, x)));
      PlusGrouped(Through(acts, x, g), NOTHING, NOTHING);
    }
  }

  /**
    After `x = std::move(y)`, and for as long as neither is assigned again, what x is given
    is accounted to y's former global stat and what y is given to x's, to the one and no other.
   */
  lemma AssignedStatGivesToTheNewLedger(acts: seq<Action>, x: nat, y: nat, more: seq<Action>, z: nat, g: nat)
    requires MayAssign(Run(acts), x, y) && Unassigned(acts + [MoveAssign(x, y)], more, z) && z in {x, y}
    ensures z < |Run(acts + [MoveAssign(x, y)] + more).stats|
    ensures var s, now := Run(acts), acts + [MoveAssign(x, y)];
      var former := s.stats[if z == x then y else x].ledger;
      && Run(now + more).stats[z].ledger == former
      && Run(now + more).stats[z].history == GivenTo(now, more, z)
      && Through(now + more, z, g)
         == Plus(Through(acts, z, g), if g == former then Exact(s.ledgers[g].kind, GivenTo(now, more, z)) else NOTHING)
  {
    hide Run, Exact, Unassigned, MayAssign;
    AssignmentSwaps(acts, x, y);
    var now := acts + [MoveAssign(x, y)];
    assert now[..|now| - 1] == acts;
    BindingStays(now, more, z);
    GivenGoesToItsLedger(now, more, z, g);
  }
}
