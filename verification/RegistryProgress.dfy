/**
  Calls of `Registry` left to run by themselves: link(), unlink() and a sweep complete, from
  any state of a run in which nobody else holds the lock they wait for.
 */
module RegistryProgress {
  import opened History
  import opened Registry
  import opened RegistryProof
  import opened Conservation
  import opened RegistryCalls

  // ----- completing the pending registrations -----

  function DrainLeft(lk: Link): nat {
    match lk.drainPc
    case NotDraining => 0
    case SwapPending => 2 * |lk.pending| + 2
    case InsertNext => 2 * |lk.drain| + 1
    case FlagNext => 2 * |lk.drain| + 2
  }

  /** What completing the pending registrations leaves alone. */
  predicate SameBut(a: Link, b: Link) {
    && b.holder == a.holder && b.alive == a.alive && b.pendingLock == a.pendingLock
    && b.visited == a.visited && b.visit == a.visit && |b.pending| <= |a.pending|
  }

  lemma DrainAdvances(lk: Link)
    requires LinkShape(lk) && lk.drainPc != NotDraining && lk.pendingLock == NOBODY
    ensures !DrainCheckFires(lk) && DrainLeft(Drain(lk)) < DrainLeft(lk) && SameBut(lk, Drain(lk))
    ensures forall y: nat :: Registered(Drain(lk), y) <==> Registered(lk, y)
  {
    DrainConsistent(lk);
  }

  // ----- link() and unlink() -----

  /** How many steps a call has left when nothing interferes, at most. */
  function StepsLeft(e: Ends): nat {
    var waiting := 2 * |e.lk.pending| + 2;
    match e.st.pc
    case Idle => 0
    case SetLinkedFree => 1 case PushFlag => 2 case PushPending => 3
    case SetLinkedHeld => 1 case InsertFlag => 2 case Insert => 3
    case LinkDrain => 4 + DrainLeft(e.lk)
    case TryLock => 5 + waiting
    case SetUnlinked => 1 case EraseFlag => 2 case Erase => 3
    case UnlinkDrain => 4 + DrainLeft(e.lk)
    case WaitLock => 5 + waiting
    case Deposit => 6 + waiting
    case Take => 7 + waiting
    case ResetValue => 8 + waiting
  }

  /**
    Nothing interferes: no one else is at the pending list, and the lock is there for the
    taking when it is waited for.
   */
  predicate Alone(e: Ends, x: nat) {
    && e.lk.pendingLock in {NOBODY, x}
    && (e.st.pc in {ResetValue, Take, Deposit, WaitLock} ==> e.lk.holder == Free)
  }

  /** What the owner's thread does next. */
  function Solo(s: State, x: nat, fails: bool): Action
    requires StatAt(s, x)
  {
    var st := s.stats[x];
    if st.pc in {LinkDrain, UnlinkDrain} && s.links[st.link].drainPc != NotDraining then DrainStep(st.link)
    else if st.pc == Take then OwnerTake(x, |st.history|)
    else OwnerStep(x, fails)
  }

  /** What unlink() has still to pass to the global stat. */
  function InHand(kind: Kind, st: Stat): Amount
    requires st.drained <= |st.history|
  {
    if st.pc in {ResetValue, Take} then Passed(kind, st.history[st.drained..])
    else if st.pc == Deposit then st.mine
    else NOTHING
  }

  /** In link(), or in unlink(), or just returned from it. */
  predicate Within(st: Stat, linking: bool) {
    if st.pc == Idle then st.linked == linking else Linking(st.pc) == linking
  }

  /** One step nearer the return, with the global stat's value and what is in hand the same in sum. */
  predicate Nearer(s: State, s': State, x: nat)
    requires StatAt(s, x)
  {
    && StatAt(s', x) && s'.stats[x].link == s.stats[x].link && s'.stats[x].ledger == s.stats[x].ledger
    && s'.stats[x].history == s.stats[x].history
    && StepsLeft(EndsOf(s', x)) < StepsLeft(EndsOf(s, x)) && Alone(EndsOf(s', x), x)
    && EndsOf(s', x).lk.alive == EndsOf(s, x).lk.alive
    && Within(s'.stats[x], Linking(s.stats[x].pc))
    && s'.stats == s.stats[x := s'.stats[x]]
    && |s'.ledgers| == |s.ledgers|
    && (forall g :: 0 <= g < |s.ledgers| && g != s.stats[x].ledger ==> s'.ledgers[g] == s.ledgers[g])
    && s.stats[x].drained <= |s.stats[x].history| && s'.stats[x].drained <= |s'.stats[x].history|
    && var lg, lg' := s.ledgers[s.stats[x].ledger], s'.ledgers[s.stats[x].ledger];
       && lg'.kind == lg.kind
       && Plus(lg'.value, InHand(lg.kind, s'.stats[x])) == Plus(lg.value, InHand(lg.kind, s.stats[x]))
  }

  lemma EndsNearer(e: Ends, x: nat, fails: bool)
    requires Consistent(e, x) && Alone(e, x) && e.st.pc !in {Idle, ResetValue, Take, Deposit}
    requires e.st.pc in {LinkDrain, UnlinkDrain} ==> e.lk.drainPc == NotDraining
    ensures var e' := OwnerEnds(e, x, fails);
      StepsLeft(e') < StepsLeft(e) && Alone(e', x) && Within(e'.st, Linking(e.st.pc))
  {
    hide LinkShape, Registered, Belongs;
  }

  lemma OwnerNearer(s: State, x: nat, fails: bool)
    requires AllOk(s) && Books(s) && StatAt(s, x) && Alone(EndsOf(s, x), x)
    requires s.stats[x].pc !in {Idle, ResetValue, Take, Deposit}
    requires s.stats[x].pc in {LinkDrain, UnlinkDrain} ==> EndsOf(s, x).lk.drainPc == NotDraining
    ensures Nearer(s, NextOwner(s, x, fails), x)
  {
    hide AllOk, Consistent, Defer, Register, Unregister, StepsLeft, Alone, Balanced, Drainable, Passed, Within;
    hide CheckFires;
    OwnConsistent(s, x);
    EndsKeep(s, x, fails);
    var e := EndsOf(s, x);
    EndsNearer(e, x, fails);
    EndsQuiet(e, x, fails);
    OwnerNames(e, x, fails);
    AliveBefore(e, x, fails);
    assert Quiet(s, x);
  }

  lemma OwnConsistent(s: State, x: nat)
    requires AllOk(s) && StatAt(s, x)
    ensures Consistent(EndsOf(s, x), x)
  {
    OwnFacts(s, x);
  }

  lemma DrainNearer(s: State, x: nat)
    requires AllOk(s) && Books(s) && StatAt(s, x) && Alone(EndsOf(s, x), x)
    requires s.stats[x].pc in {LinkDrain, UnlinkDrain} && EndsOf(s, x).lk.drainPc != NotDraining
    ensures Nearer(s, Next(s, DrainStep(s.stats[x].link)), x)
  {
    hide AllOk, LinkShape, Registered, Drain, DrainCheckFires, DrainLeft, Balanced, Drainable, Passed;
    OwnConsistent(s, x);
    DrainAdvances(EndsOf(s, x).lk);
    assert Quiet(s, x);
  }

  lemma ValueNearer(s: State, x: nat, fails: bool)
    requires AllOk(s) && Books(s) && StatAt(s, x) && Alone(EndsOf(s, x), x)
    requires s.stats[x].pc in {ResetValue, Deposit}
    ensures Nearer(s, NextOwner(s, x, fails), x)
  {
    hide AllOk, Defer, Register, Unregister, Balanced, Drainable, Passed;
    assert Quiet(s, x);
  }

  lemma TakeNearer(s: State, x: nat)
    requires AllOk(s) && Books(s) && StatAt(s, x) && Alone(EndsOf(s, x), x) && s.stats[x].pc == Take
    ensures Nearer(s, Next(s, OwnerTake(x, |s.stats[x].history|)), x)
  {
    hide AllOk, Balanced, Drainable, Passed, Exact;
    assert Quiet(s, x);
    var st := s.stats[x];
    assert st.history[st.drained..|st.history|] == st.history[st.drained..];
  }

  lemma SoloNearer(s: State, x: nat, fails: bool)
    requires AllOk(s) && Books(s) && StatAt(s, x) && Alone(EndsOf(s, x), x) && s.stats[x].pc != Idle
    ensures Nearer(s, Next(s, Solo(s, x, fails)), x)
  {
    hide AllOk, Books, Nearer, Alone, NextOwner, Drain, TakeWindow;
    if s.stats[x].pc in {LinkDrain, UnlinkDrain} && s.links[s.stats[x].link].drainPc != NotDraining {
      DrainNearer(s, x);
    } else if s.stats[x].pc == Take {
      TakeNearer(s, x);
    } else if s.stats[x].pc in {ResetValue, Deposit} {
      ValueNearer(s, x, fails);
    } else {
      OwnerNearer(s, x, fails);
    }
  }

  /** The steps of a call of the stat's owner, with the registrations that it completes. */
  predicate OwnSteps(more: seq<Action>, x: nat, l: nat) {
    forall i :: 0 <= i < |more| ==>
      var a := more[i];
      ((a.OwnerStep? || a.OwnerTake?) && a.x == x) || (a.DrainStep? && a.l == l)
  }

  /** The call has returned; nothing has changed but its stat, its link and its global stat. */
  predicate Returned(s: State, s': State, x: nat, linked: bool)
    requires StatAt(s, x)
  {
    && StatAt(s', x) && s'.stats[x].pc == Idle && s'.stats[x].linked == linked
    && s'.stats[x].link == s.stats[x].link && s'.stats[x].ledger == s.stats[x].ledger
    && s'.stats[x].history == s.stats[x].history && EndsOf(s', x).lk.alive == EndsOf(s, x).lk.alive
    && s'.stats == s.stats[x := s'.stats[x]]
    && |s'.ledgers| == |s.ledgers|
    && (forall g :: 0 <= g < |s.ledgers| && g != s.stats[x].ledger ==> s'.ledgers[g] == s.ledgers[g])
  }

  /** It has passed on what was in hand. */
  predicate Completed(s: State, s': State, x: nat, linked: bool)
    requires StatAt(s, x)
  {
    && Returned(s, s', x, linked)
    && s.stats[x].drained <= |s.stats[x].history|
    && var lg, lg' := s.ledgers[s.stats[x].ledger], s'.ledgers[s.stats[x].ledger];
       lg'.kind == lg.kind && lg'.value == Plus(lg.value, InHand(lg.kind, s.stats[x]))
  }

  lemma NearerToReturn(s: State, s': State, x: nat)
    requires StatAt(s, x) && Nearer(s, s', x) && s'.stats[x].pc == Idle
    ensures Completed(s, s', x, Linking(s.stats[x].pc))
  {
    hide Passed;
  }

  lemma NearerAndCompleted(s: State, s1: State, s2: State, x: nat, linked: bool)
    requires StatAt(s, x) && Nearer(s, s1, x) && s1.stats[x].pc != Idle && Completed(s1, s2, x, linked)
    ensures Completed(s, s2, x, linked)
  {
    hide Passed, Alone, StepsLeft, Linking, Within;
  }

  lemma {:induction false} OwnerFinishes(acts: seq<Action>, x: nat, fails: bool) returns (more: seq<Action>)
    requires StatAt(Run(acts), x) && Run(acts).stats[x].pc != Idle && Alone(EndsOf(Run(acts), x), x)
    ensures OwnSteps(more, x, Run(acts).stats[x].link) && |more| <= StepsLeft(EndsOf(Run(acts), x))
    ensures Completed(Run(acts), Run(acts + more), x, Linking(Run(acts).stats[x].pc))
    decreases StepsLeft(EndsOf(Run(acts), x))
  {
    hide Run, Next, AllOk, Books, Alone, StepsLeft, Completed;
    var s := Run(acts);
    var a := Solo(s, x, fails);
    RunBooks(acts);
    SoloNearer(s, x, fails);
    OneMore(acts, a);
    var s1 := Run(acts + [a]);
    if s1.stats[x].pc == Idle {
      more := [a];
      NearerToReturn(s, s1, x);
    } else {
      var rest := OwnerFinishes(acts + [a], x, fails);
      more := [a] + rest;
      assert acts + more == acts + [a] + rest;
      NearerAndCompleted(s, s1, Run(acts + more), x, Linking(s.stats[x].pc));
    }
  }

  /**
    link(), from any state of a run in which no one is at the pending list, whoever holds
    the registry lock and whatever try_lock() says: by itself it returns, and the stat is
    registered with its container.
   */
  lemma LinkReturns(acts: seq<Action>, x: nat, fails: bool) returns (more: seq<Action>)
    requires Resting(Run(acts), x)
    requires EndsOf(Run(acts), x).lk.holder != Destroyer && EndsOf(Run(acts), x).lk.pendingLock == NOBODY
    ensures OwnSteps(more, x, Run(acts).stats[x].link) && |more| <= 2 * |EndsOf(Run(acts), x).lk.pending| + 7
    ensures var s, s' := Run(acts), Run(acts + [BeginLink(x)] + more);
      && Returned(s, s', x, true)
      && s'.ledgers[s.stats[x].ledger].value == s.ledgers[s.stats[x].ledger].value
      && (EndsOf(s, x).lk.alive ==> Registered(EndsOf(s', x).lk, x))
  {
    hide Run, AllOk;
    var s, s1 := Run(acts), Run(acts + [BeginLink(x)]);
    OneMore(acts, BeginLink(x));
    more := OwnerFinishes(acts + [BeginLink(x)], x, fails);
    RunKeeps(acts + [BeginLink(x)] + more);
    OwnFacts(Run(acts + [BeginLink(x)] + more), x);
    RunBooks(acts);
    assert Quiet(s, x);
    NothingMore(s.ledgers[s.stats[x].ledger].value);
  }

  lemma NothingMore(a: Amount)
    ensures Plus(a, NOTHING) == a
  {}

  /**
    unlink(), from any state of a run in which nobody holds the registry lock or is at the
    pending list: by itself it returns, the stat is registered no more, and all that was
    not yet drained has been passed to its global stat.
   */
  lemma UnlinkReturns(acts: seq<Action>, x: nat) returns (more: seq<Action>)
    requires StatAt(Run(acts), x) && Run(acts).stats[x].pc == Idle && Run(acts).stats[x].linked
    requires EndsOf(Run(acts), x).lk.holder == Free && EndsOf(Run(acts), x).lk.pendingLock == NOBODY
    ensures OwnSteps(more, x, Run(acts).stats[x].link) && |more| <= 2 * |EndsOf(Run(acts), x).lk.pending| + 10
    ensures Run(acts).stats[x].drained <= |Run(acts).stats[x].history|
    ensures var s, s' := Run(acts), Run(acts + [BeginUnlink(x)] + more);
      var st, lg := s.stats[x], s.ledgers[s.stats[x].ledger];
      && Returned(s, s', x, false)
      && s'.stats[x].drained == |st.history|
      && s'.ledgers[st.ledger].value == Plus(lg.value, Passed(lg.kind, st.history[st.drained..]))
      && !Registered(EndsOf(s', x).lk, x)
  {
    hide Run, AllOk, Passed;
    var s := Run(acts);
    OneMore(acts, BeginUnlink(x));
    RunBooks(acts);
    assert Quiet(s, x);
    more := OwnerFinishes(acts + [BeginUnlink(x)], x, false);
    var s' := Run(acts + [BeginUnlink(x)] + more);
    RunBooks(acts + [BeginUnlink(x)] + more);
    assert Quiet(s', x);
    OwnFacts(s', x);
  }

  // ----- a sweep -----

  predicate SweepSteps(more: seq<Action>, l: nat) {
    forall i :: 0 <= i < |more| ==>
      var a := more[i];
      (a.SweepLock? || a.DrainStep? || a.SweepVisit? || a.SweepTake? || a.SweepDeposit? || a.SweepUnlock?) && a.l == l
  }

  predicate DrainSteps(more: seq<Action>, l: nat) {
    forall i :: 0 <= i < |more| ==> more[i] == DrainStep(l)
  }

  /** The sweep holds the lock, with all that was pending in the main set, and is between two calls. */
  predicate Between(s: State, l: nat) {
    && Sweeping(s, l) && s.links[l].visit == NoVisit && s.links[l].pending == [] && s.links[l].drain == []
    && s.links[l].visited <= s.links[l].stats && s.links[l].alive
    && (forall x :: x in s.links[l].visited ==> x < |s.stats| && s.stats[x].drained == |s.stats[x].history|)
  }

  /** The same stats have been given the same and are registered with the link, or not, as before. */
  ghost predicate SameStats(s: State, s': State, l: nat) {
    && l < |s.links| && l < |s'.links| && |s'.stats| == |s.stats|
    && (forall x :: 0 <= x < |s.stats| ==> s'.stats[x].history == s.stats[x].history)
    && (forall x: nat :: Registered(s'.links[l], x) <==> Registered(s.links[l], x))
  }

  /** Completing the pending registrations under the lock of a sweep or of the container's destruction. */
  predicate Filling(s: State, l: nat, holder: Holder) {
    && l < |s.links|
    && var lk := s.links[l];
       && lk.holder == holder && lk.alive && lk.pendingLock == NOBODY && lk.visit == NoVisit
       && (holder == Sweep ==> lk.visited == {})
       && (lk.drainPc == SwapPending || lk.pending == [])
  }

  lemma FillStep(s: State, l: nat, holder: Holder)
    requires AllOk(s) && Filling(s, l, holder) && s.links[l].drainPc != NotDraining
    ensures var s' := Next(s, DrainStep(l));
      Filling(s', l, holder) && SameStats(s, s', l) && DrainLeft(s'.links[l]) < DrainLeft(s.links[l])
  {
    assert LinkOk(s, l);
    hide AllOk, LinkOk, LinkShape, Registered, DrainCheckFires;
    DrainAdvances(s.links[l]);
  }

  lemma Filled(s: State, l: nat)
    requires AllOk(s) && Filling(s, l, Sweep) && s.links[l].drainPc == NotDraining
    ensures Between(s, l)
  {
    assert LinkOk(s, l);
  }

  lemma SameStatsTwice(s: State, s1: State, s2: State, l: nat)
    requires SameStats(s, s1, l) && SameStats(s1, s2, l)
    ensures SameStats(s, s2, l)
  {}

  lemma {:induction false} FillFinishes(acts: seq<Action>, l: nat, holder: Holder) returns (more: seq<Action>)
    requires Filling(Run(acts), l, holder)
    ensures DrainSteps(more, l) && SameStats(Run(acts), Run(acts + more), l)
    ensures Filling(Run(acts + more), l, holder) && Run(acts + more).links[l].drainPc == NotDraining
    decreases if l < |Run(acts).links| then DrainLeft(Run(acts).links[l]) else 0
  {
    hide Run, Next, AllOk, SameStats, DrainLeft;
    RunKeeps(acts);
    if Run(acts).links[l].drainPc == NotDraining {
      more := [];
      assert acts + more == acts;
      assert SameStats(Run(acts), Run(acts), l) by { NothingMoved(Run(acts), l); }
    } else {
      OneMore(acts, DrainStep(l));
      FillStep(Run(acts), l, holder);
      var rest := FillFinishes(acts + [DrainStep(l)], l, holder);
      more := [DrainStep(l)] + rest;
      assert acts + more == acts + [DrainStep(l)] + rest;
      SameStatsTwice(Run(acts), Run(acts + [DrainStep(l)]), Run(acts + more), l);
    }
  }

  lemma NothingMoved(s: State, l: nat)
    requires l < |s.links|
    ensures SameStats(s, s, l)
  {}

  /** A call of one stat's aggregate(): all that it was given is drained, and passed to its global stat. */
  predicate Aggregated(s: State, s': State, l: nat, x: nat) {
    && l < |s.links| && StatAt(s, x) && x in s.links[l].stats && s.stats[x].drained <= |s.stats[x].history|
    && s'.links == s.links[l := s.links[l].(visited := s.links[l].visited + {x})]
    && |s'.stats| == |s.stats| && s'.stats == s.stats[x := s'.stats[x]]
    && s'.stats[x].history == s.stats[x].history && s'.stats[x].drained == |s.stats[x].history|
    && |s'.ledgers| == |s.ledgers|
    && (forall g :: 0 <= g < |s.ledgers| && g != s.stats[x].ledger ==> s'.ledgers[g] == s.ledgers[g])
    && var st, lg := s.stats[x], s.ledgers[s.stats[x].ledger];
       s'.ledgers[st.ledger].value == Plus(lg.value, Passed(lg.kind, st.history[st.drained..]))
  }

  lemma AggregateSteps(s: State, l: nat, x: nat)
    requires Between(s, l) && StatAt(s, x) && x in s.links[l].stats - s.links[l].visited
    requires s.stats[x].drained <= |s.stats[x].history|
    ensures var s2 := Next(Next(s, SweepVisit(l, x)), SweepTake(l, |s.stats[x].history|));
      Aggregated(s, Next(s2, SweepDeposit(l)), l, x)
  {
    hide Passed, Exact;
    var st := s.stats[x];
    assert st.history[st.drained..|st.history|] == st.history[st.drained..];
    var s1 := Next(s, SweepVisit(l, x));
    var s2 := Next(s1, SweepTake(l, |st.history|));
    assert s2.stats[x].swept == Passed(s.ledgers[st.ledger].kind, st.history[st.drained..]);
  }

  /** The calls that a sweep is between: any stat that it has yet to call can be called next, and the call returns. */
  lemma AggregateReturns(acts: seq<Action>, l: nat, x: nat) returns (more: seq<Action>)
    requires Between(Run(acts), l) && x in Run(acts).links[l].stats - Run(acts).links[l].visited
    ensures SweepSteps(more, l) && Aggregated(Run(acts), Run(acts + more), l, x)
  {
    hide Run, Next, Between, Aggregated, Quiet, AllOk;
    RunBooks(acts);
    var s := Run(acts);
    RegisteredStats(s, l, x);
    var a, b, c := SweepVisit(l, x), SweepTake(l, |s.stats[x].history|), SweepDeposit(l);
    OneMore(acts, a);
    OneMore(acts + [a], b);
    OneMore(acts + [a] + [b], c);
    AggregateSteps(s, l, x);
    more := [a, b, c];
    assert acts + more == acts + [a] + [b] + [c];
  }

  lemma RegisteredStats(s: State, l: nat, x: nat)
    requires AllOk(s) && Books(s) && Between(s, l) && x in s.links[l].stats
    ensures StatAt(s, x) && s.stats[x].drained <= |s.stats[x].history|
  {
    assert LinkOk(s, l);
    assert Registered(s.links[l], x);
    assert StatOk(s, x) && Quiet(s, x);
  }

  lemma StillBetween(s: State, s': State, l: nat, x: nat)
    requires Between(s, l) && Aggregated(s, s', l, x)
    ensures Between(s', l) && SameStats(s, s', l) && s'.links[l].stats == s.links[l].stats
    ensures s'.links[l].visited == s.links[l].visited + {x}
  {
    hide Passed;
  }

  /** Every stat has been called, and has nothing left to drain. */
  predicate Swept(s: State, l: nat) {
    Between(s, l) && s.links[l].visited == s.links[l].stats
  }

  lemma {:induction false} VisitsFinish(acts: seq<Action>, l: nat) returns (more: seq<Action>)
    requires Between(Run(acts), l)
    ensures SweepSteps(more, l) && SameStats(Run(acts), Run(acts + more), l) && Swept(Run(acts + more), l)
    decreases if l < |Run(acts).links| then Run(acts).links[l].stats - Run(acts).links[l].visited else {}
  {
    hide Run, Next, AllOk, SameStats, Aggregated;
    var left := Run(acts).links[l].stats - Run(acts).links[l].visited;
    if left == {} {
      more := [];
      assert Run(acts).links[l].stats == left + Run(acts).links[l].visited;
      assert acts + more == acts;
      assert SameStats(Run(acts), Run(acts), l) by { NothingMoved(Run(acts), l); }
    } else {
      var x :| x in left;
      var call := AggregateReturns(acts, l, x);
      StillBetween(Run(acts), Run(acts + call), l, x);
      var rest := VisitsFinish(acts + call, l);
      more := call + rest;
      assert acts + more == acts + call + rest;
      SameStatsTwice(Run(acts), Run(acts + call), Run(acts + more), l);
    }
  }

  /**
    aggregate() of a container, from any state of a run in which its lock is free: by itself
    it completes, having drained all that every stat registered or pending had been given.
   */
  lemma SweepReturns(acts: seq<Action>, l: nat) returns (more: seq<Action>)
    requires l < |Run(acts).links|
    requires var lk := Run(acts).links[l]; lk.holder == Free && lk.alive && lk.pendingLock == NOBODY
    ensures SweepSteps(more, l)
    ensures var s, s' := Run(acts), Run(acts + more);
      && SameStats(s, s', l) && s'.links[l].holder == Free && s'.links[l].pending == [] && s'.links[l].drain == []
      && forall x: nat :: Registered(s.links[l], x) ==>
           x < |s.stats| && x in s'.links[l].stats && s'.stats[x].drained == |s.stats[x].history|
  {
    hide Run, AllOk, SameStats, Between;
    var now := acts + [SweepLock(l)];
    OneMore(acts, SweepLock(l));
    RunKeeps(acts);
    LockFills(Run(acts), l);
    var fill := FillFinishes(now, l, Sweep);
    RunKeeps(now + fill);
    Filled(Run(now + fill), l);
    var visits := VisitsFinish(now + fill, l);
    var swept := now + fill + visits;
    OneMore(swept, SweepUnlock(l));
    UnlockEnds(Run(swept), l);
    more := [SweepLock(l)] + fill + visits + [SweepUnlock(l)];
    assert acts + more == swept + [SweepUnlock(l)];
    SameStatsTwice(Run(acts), Run(now), Run(now + fill), l);
    SameStatsTwice(Run(acts), Run(now + fill), Run(swept), l);
    SameStatsTwice(Run(acts), Run(swept), Run(acts + more), l);
    SweptStats(Run(acts), Run(acts + more), l);
  }

  lemma LockFills(s: State, l: nat)
    requires AllOk(s) && l < |s.links|
    requires s.links[l].holder == Free && s.links[l].alive && s.links[l].pendingLock == NOBODY
    ensures Filling(Next(s, SweepLock(l)), l, Sweep) && SameStats(s, Next(s, SweepLock(l)), l)
  {
    assert LinkOk(s, l);
  }

  /** The lock is free and nothing registered has anything to drain. */
  predicate Emptied(s: State, l: nat) {
    && l < |s.links| && s.links[l].holder == Free && s.links[l].pending == [] && s.links[l].drain == []
    && forall x :: x in s.links[l].stats ==> x < |s.stats| && s.stats[x].drained == |s.stats[x].history|
  }

  lemma UnlockEnds(s: State, l: nat)
    requires Swept(s, l)
    ensures var s' := Next(s, SweepUnlock(l)); Emptied(s', l) && SameStats(s, s', l)
  {}

  lemma SweptStats(s: State, s': State, l: nat)
    requires SameStats(s, s', l) && Emptied(s', l)
    ensures forall x: nat :: Registered(s.links[l], x) ==>
      x < |s.stats| && x in s'.links[l].stats && s'.stats[x].drained == |s.stats[x].history|
  {
    forall x: nat | Registered(s.links[l], x)
      ensures x < |s.stats| && x in s'.links[l].stats && s'.stats[x].drained == |s.stats[x].history|
    {
      assert Registered(s'.links[l], x);
    }
  }

  // ----- the end of a container -----

  lemma DestroyLocks(s: State, l: nat)
    requires AllOk(s) && l < |s.links| && NoneLinking(s, l)
    requires s.links[l].holder == Free && s.links[l].alive && s.links[l].pendingLock == NOBODY
    ensures Filling(Next(s, DestroyLock(l)), l, Destroyer)
  {
    assert LinkOk(s, l);
  }

  /** The container is gone: its link is free, refers to no container, and no stat is registered with it. */
  ghost predicate Gone(s: State, l: nat) {
    && l < |s.links| && s.links[l].holder == Free && !s.links[l].alive
    && forall x: nat :: !Registered(s.links[l], x)
  }

  lemma BodyEnds(s: State, l: nat)
    requires AllOk(s) && Filling(s, l, Destroyer) && s.links[l].drainPc == NotDraining
    ensures Gone(Next(s, DestroyBody(l)), l)
  {
    assert LinkOk(s, l);
  }

  /** The destruction of a container, from any state of a run with its lock free and no link() to it in progress. */
  lemma DestroyReturns(acts: seq<Action>, l: nat) returns (more: seq<Action>)
    requires l < |Run(acts).links| && NoneLinking(Run(acts), l)
    requires var lk := Run(acts).links[l]; lk.holder == Free && lk.alive && lk.pendingLock == NOBODY
    ensures DrainSteps(more, l)
    ensures Gone(Run(acts + [DestroyLock(l)] + more + [DestroyBody(l)]), l)
  {
    hide Run, Next, AllOk;
    var now := acts + [DestroyLock(l)];
    OneMore(acts, DestroyLock(l));
    RunKeeps(acts);
    DestroyLocks(Run(acts), l);
    more := FillFinishes(now, l, Destroyer);
    RunKeeps(now + more);
    OneMore(now + more, DestroyBody(l));
    BodyEnds(Run(now + more), l);
  }
}
