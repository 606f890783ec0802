/**
  What a completed sweep has done: aggregate() called every stat registered with its
  container, and drained at least all that each had been given when it was called.
 */
module SweepReach {
  import opened Registry
  import opened RegistryProof
  import opened Conservation

  /** The sweep is at the stat, or has drained what the stat had when it was called. */
  predicate Reached(st: Stat, lk: Link, x: nat) {
    lk.visit == Visit(x, false) || st.sweepBegan <= st.drained
  }

  predicate SweepOk(s: State, l: nat)
    requires l < |s.links|
  {
    var lk := s.links[l];
    lk.holder == Sweep ==>
      && (lk.drainPc != NotDraining ==> lk.visited == {})
      && lk.visited <= lk.stats
      && (forall x :: x in lk.visited ==> x < |s.stats| && Reached(s.stats[x], lk, x))
  }

  predicate SweepsOk(s: State) {
    forall l :: 0 <= l < |s.links| ==> SweepOk(s, l)
  }

  predicate SameSweep(a: Link, b: Link) {
    a.holder == b.holder && a.visited == b.visited && a.stats == b.stats && a.visit == b.visit && a.drainPc == b.drainPc
  }

  /** No sweep begins or moves on, and no registered stat is less drained. */
  ghost predicate Undisturbed(s: State, s': State) {
    && |s'.stats| >= |s.stats|
    && (forall l :: 0 <= l < |s'.links| && s'.links[l].holder == Sweep ==>
          l < |s.links| && SameSweep(s.links[l], s'.links[l]))
    && (forall x :: 0 <= x < |s.stats| && Belongs(s.stats[x]) ==>
          s'.stats[x].sweepBegan == s.stats[x].sweepBegan && s'.stats[x].drained >= s.stats[x].drained)
  }

  lemma VisitedBelong(s: State, l: nat)
    requires AllOk(s) && l < |s.links| && SweepOk(s, l) && s.links[l].holder == Sweep
    ensures forall x :: x in s.links[l].visited ==> x < |s.stats| && s.stats[x].link == l && Belongs(s.stats[x])
  {
    assert LinkOk(s, l);
    forall x | x in s.links[l].visited ensures x < |s.stats| && s.stats[x].link == l && Belongs(s.stats[x]) {
      assert Registered(s.links[l], x);
    }
  }

  lemma UndisturbedKeeps(s: State, s': State)
    requires AllOk(s) && SweepsOk(s) && Undisturbed(s, s')
    ensures SweepsOk(s')
  {
    hide AllOk, Belongs;
    forall l | 0 <= l < |s'.links| ensures SweepOk(s', l) {
      if s'.links[l].holder == Sweep {
        assert SweepOk(s, l);
        VisitedBelong(s, l);
      }
    }
  }

  // ----- steps that leave sweeps alone -----

  predicate SweepEnds(e: Ends, e': Ends) {
    && (e'.lk.holder == Sweep ==> SameSweep(e.lk, e'.lk))
    && e'.st.sweepBegan == e.st.sweepBegan && e'.st.drained == e.st.drained
  }

  lemma OwnerSparesSweep(e: Ends, x: nat, fails: bool)
    requires Agree(e, x)
    ensures SweepEnds(e, OwnerEnds(e, x, fails))
  {
    hide CheckFires;
  }

  lemma OwnerUndisturbed(s: State, x: nat, fails: bool)
    requires AllOk(s) && StatAt(s, x) && s.stats[x].pc != Idle
    ensures Undisturbed(s, NextOwner(s, x, fails))
  {
    hide Defer, Register, Unregister, LinkOk, Belongs, Agree;
    assert StatOk(s, x);
    OwnerSparesSweep(EndsOf(s, x), x, fails);
  }

  lemma MoveUndisturbed(s: State, x: nat, y: nat)
    requires AllOk(s)
    ensures Undisturbed(s, Next(s, MoveAssign(x, y)))
  {
    hide LinkOk, StatOk, Places;
    LedgersBound(s);
  }

  lemma LifetimeUndisturbed(s: State, a: Action)
    requires AllOk(s)
    requires a.Construct? || a.MoveConstruct? || a.DestroyStat? || a.ReleaseContainer?
          || a.NewLedger? || a.NewContainer?
    ensures Undisturbed(s, Next(s, a))
  {
    hide LinkOk, StatOk, Places, Replace, NextOwner;
  }

  lemma ValueUndisturbed(s: State, a: Action)
    requires a.AddValue? || a.OwnerTake? || a.BeginLink? || a.BeginUnlink?
    ensures Undisturbed(s, Next(s, a))
  {
    hide Passed, PassedNow, NextOwner;
  }

  lemma LockUndisturbed(s: State, a: Action)
    requires a.SweepUnlock? || a.DestroyLock? || a.DestroyBody?
    ensures Undisturbed(s, Next(s, a))
  {
    hide NextOwner;
  }

  // ----- the sweep's own steps -----

  lemma SweepLockReaches(s: State, l: nat)
    requires SweepsOk(s)
    ensures SweepsOk(Next(s, SweepLock(l)))
  {
    var s' := Next(s, SweepLock(l));
    forall k | 0 <= k < |s'.links| ensures SweepOk(s', k) {
      assert SweepOk(s, k);
    }
  }

  lemma DrainReaches(s: State, l: nat)
    requires AllOk(s) && SweepsOk(s)
    ensures SweepsOk(Next(s, DrainStep(l)))
  {
    hide AllOk;
    var s' := Next(s, DrainStep(l));
    forall k | 0 <= k < |s'.links| ensures SweepOk(s', k) {
      assert SweepOk(s, k);
    }
  }

  lemma SweepVisitReaches(s: State, l: nat, x: nat)
    requires AllOk(s) && SweepsOk(s)
    ensures SweepsOk(Next(s, SweepVisit(l, x)))
  {
    hide LinkOk, StatOk, Belongs;
    var s' := Next(s, SweepVisit(l, x));
    if s' != s {
      forall k | 0 <= k < |s'.links| ensures SweepOk(s', k) {
        assert SweepOk(s, k);
        if s.links[k].holder == Sweep {
          VisitedBelong(s, k);
          assert k != l ==> x !in s.links[k].visited by { VisitedOnce(s, l, k, x); }
        }
      }
    }
  }

  /** A stat registered with one link is not being swept with another. */
  lemma VisitedOnce(s: State, l: nat, k: nat, x: nat)
    requires AllOk(s) && SweepsOk(s) && l < |s.links| && k < |s.links| && x in s.links[l].stats
    requires s.links[k].holder == Sweep
    ensures k != l ==> x !in s.links[k].visited
  {
    assert SweepOk(s, k);
    VisitedBelong(s, k);
    assert LinkOk(s, l);
    assert Registered(s.links[l], x);
  }

  lemma SweepTakeReaches(s: State, l: nat, to: nat)
    requires AllOk(s) && SweepsOk(s)
    ensures SweepsOk(Next(s, SweepTake(l, to)))
  {
    hide Exact, Passed, AllOk;
    var s' := Next(s, SweepTake(l, to));
    if s' != s {
      forall k | 0 <= k < |s'.links| ensures SweepOk(s', k) {
        assert SweepOk(s, k);
      }
    }
  }

  lemma SweepDepositReaches(s: State, l: nat)
    requires AllOk(s) && SweepsOk(s)
    ensures SweepsOk(Next(s, SweepDeposit(l)))
  {
    hide AllOk;
    var s' := Next(s, SweepDeposit(l));
    if s' != s {
      forall k | 0 <= k < |s'.links| ensures SweepOk(s', k) {
        assert SweepOk(s, k);
      }
    }
  }

  lemma StepReaches(s: State, a: Action)
    requires AllOk(s) && SweepsOk(s)
    ensures SweepsOk(Next(s, a))
  {
    hide AllOk, SweepsOk, Undisturbed, NextOwner;
    if a.SweepLock? {
      SweepLockReaches(s, a.l);
    } else if a.DrainStep? {
      DrainReaches(s, a.l);
    } else if a.SweepVisit? {
      SweepVisitReaches(s, a.l, a.x);
    } else if a.SweepTake? {
      SweepTakeReaches(s, a.l, a.to);
    } else if a.SweepDeposit? {
      SweepDepositReaches(s, a.l);
    } else {
      OtherUndisturbed(s, a);
      UndisturbedKeeps(s, Next(s, a));
    }
  }

  lemma OtherUndisturbed(s: State, a: Action)
    requires AllOk(s) && !a.SweepLock? && !a.DrainStep? && !a.SweepVisit? && !a.SweepTake? && !a.SweepDeposit?
    ensures Undisturbed(s, Next(s, a))
  {
    hide AllOk, NextOwner, Undisturbed;
    if a.OwnerStep? {
      assert Undisturbed(s, s) by { NothingDisturbed(s); }
      if StatAt(s, a.x) && s.stats[a.x].pc != Idle {
        OwnerUndisturbed(s, a.x, a.fails);
      }
    } else if a.MoveAssign? {
      MoveUndisturbed(s, a.x, a.y);
    } else if a.AddValue? || a.OwnerTake? || a.BeginLink? || a.BeginUnlink? {
      ValueUndisturbed(s, a);
    } else if a.SweepUnlock? || a.DestroyLock? || a.DestroyBody? {
      LockUndisturbed(s, a);
    } else {
      LifetimeUndisturbed(s, a);
    }
  }

  lemma NothingDisturbed(s: State)
    ensures Undisturbed(s, s)
  {}

  lemma {:induction false} RunReaches(acts: seq<Action>)
    ensures AllOk(Run(acts)) && SweepsOk(Run(acts))
  {
    hide AllOk, SweepsOk, Next;
    RunKeeps(acts);
    if acts == [] {
      assert SweepsOk(INIT) by { NoSweeps(); }
    } else {
      RunReaches(acts[..|acts| - 1]);
      StepReaches(Run(acts[..|acts| - 1]), acts[|acts| - 1]);
    }
  }

  lemma NoSweeps()
    ensures SweepsOk(INIT)
  {}

  // ----- the calls of a sweep -----

  predicate Sweeps(s: State, l: nat) {
    l < |s.links| && s.links[l].holder == Sweep
  }

  /** A sweep begins with its lock. */
  lemma SweepBegins(s: State, a: Action, l: nat)
    requires AllOk(s) && Sweeps(Next(s, a), l)
    ensures Sweeps(s, l) || (a == SweepLock(l) && l < |s.links| && s.links[l].holder == Free)
  {
    hide AllOk, NextOwner, Undisturbed;
    if !a.SweepLock? && !a.DrainStep? && !a.SweepVisit? && !a.SweepTake? && !a.SweepDeposit? {
      OtherUndisturbed(s, a);
      assert Undisturbed(s, Next(s, a)) ==> Sweeps(s, l) by { UndisturbedSweeps(s, Next(s, a), l); }
    } else {
      hide Exact, Passed;
    }
  }

  lemma UndisturbedSweeps(s: State, s': State, l: nat)
    ensures Undisturbed(s, s') && Sweeps(s', l) ==> Sweeps(s, l) && s'.links[l].visited == s.links[l].visited
  {}

  /** What a sweep has called, and what that stat had then, changes only with the call itself. */
  predicate Called(s: State, s': State, a: Action, l: nat, x: nat)
    requires Sweeps(s', l)
  {
    && Sweeps(s, l) && x < |s.stats| && x < |s'.stats|
    && if a == SweepVisit(l, x) && x !in s.links[l].visited then s'.stats[x].sweepBegan == |s.stats[x].history|
       else x in s.links[l].visited && s'.stats[x].sweepBegan == s.stats[x].sweepBegan
  }

  lemma VisitCalls(s: State, a: Action, l: nat, x: nat)
    requires AllOk(s) && SweepsOk(s) && a.SweepVisit? && Sweeps(Next(s, a), l) && x in Next(s, a).links[l].visited
    ensures Called(s, Next(s, a), a, l, x)
  {
    hide LinkOk, StatOk, Belongs;
    assert SweepOk(s, l);
    if a.l < |s.links| && a.x in s.links[a.l].stats {
      VisitedOnce(s, a.l, l, a.x);
    }
  }

  lemma LockCalls(s: State, a: Action, l: nat, x: nat)
    requires AllOk(s) && SweepsOk(s) && (a.SweepLock? || a.DrainStep?)
    requires Sweeps(Next(s, a), l) && x in Next(s, a).links[l].visited
    ensures Called(s, Next(s, a), a, l, x)
  {
    hide AllOk;
    assert l < |s.links| && SweepOk(s, l);
  }

  lemma WindowCalls(s: State, a: Action, l: nat, x: nat)
    requires AllOk(s) && SweepsOk(s) && (a.SweepTake? || a.SweepDeposit?)
    requires Sweeps(Next(s, a), l) && x in Next(s, a).links[l].visited
    ensures Called(s, Next(s, a), a, l, x)
  {
    hide AllOk, Exact, Passed;
    assert l < |s.links| && SweepOk(s, l);
  }

  lemma StepCalls(s: State, a: Action, l: nat, x: nat)
    requires AllOk(s) && SweepsOk(s) && Sweeps(Next(s, a), l) && x in Next(s, a).links[l].visited
    ensures Called(s, Next(s, a), a, l, x)
  {
    hide AllOk, SweepsOk, Next;
    if a.SweepVisit? {
      VisitCalls(s, a, l, x);
    } else if a.SweepLock? || a.DrainStep? {
      LockCalls(s, a, l, x);
    } else if a.SweepTake? || a.SweepDeposit? {
      WindowCalls(s, a, l, x);
    } else {
      OtherUndisturbed(s, a);
      UndisturbedSweeps(s, Next(s, a), l);
      VisitedStay(s, Next(s, a), l, x);
    }
  }

  lemma VisitedStay(s: State, s': State, l: nat, x: nat)
    requires AllOk(s) && SweepsOk(s) && Undisturbed(s, s') && Sweeps(s, l) && x in s.links[l].visited
    ensures x < |s.stats| && x < |s'.stats| && s'.stats[x].sweepBegan == s.stats[x].sweepBegan
  {
    hide AllOk, Belongs;
    assert SweepOk(s, l);
    VisitedBelong(s, l);
  }

  /** The sweep in progress began with taking the free lock. */
  lemma {:induction false} LockOf(acts: seq<Action>, l: nat) returns (b: nat)
    requires Sweeps(Run(acts), l)
    ensures b < |acts| && acts[b] == SweepLock(l)
    ensures l < |Run(acts[..b]).links| && Run(acts[..b]).links[l].holder == Free
    ensures forall j :: b < j <= |acts| ==> Sweeps(Run(acts[..j]), l)
  {
    hide Next, AllOk, Sweeps;
    NoSweepAtFirst(l);
    var n := |acts| - 1;
    assert acts[..|acts|] == acts;
    RunKeeps(acts[..n]);
    SweepBegins(Run(acts[..n]), acts[n], l);
    if Sweeps(Run(acts[..n]), l) {
      b := LockOf(acts[..n], l);
      forall j | 0 <= j <= n ensures acts[..n][..j] == acts[..j] {}
    } else {
      b := n;
    }
  }

  lemma NoSweepAtFirst(l: nat)
    ensures !Sweeps(INIT, l)
  {}

  /** The sweep in progress called the stat, which had then been given what `sweepBegan` says. */
  lemma {:induction false} VisitOf(acts: seq<Action>, l: nat, x: nat) returns (k: nat)
    requires Sweeps(Run(acts), l) && x in Run(acts).links[l].visited
    ensures k < |acts| && acts[k] == SweepVisit(l, x)
    ensures forall j :: k <= j <= |acts| ==> Sweeps(Run(acts[..j]), l)
    ensures x < |Run(acts[..k]).stats| && x < |Run(acts).stats|
    ensures Run(acts).stats[x].sweepBegan == |Run(acts[..k]).stats[x].history|
  {
    hide Next, AllOk, SweepsOk;
    NoSweepAtFirst(l);
    var n := |acts| - 1;
    assert acts[..|acts|] == acts;
    RunReaches(acts[..n]);
    StepCalls(Run(acts[..n]), acts[n], l, x);
    if acts[n] == SweepVisit(l, x) && x !in Run(acts[..n]).links[l].visited {
      k := n;
    } else {
      k := VisitOf(acts[..n], l, x);
      forall j | 0 <= j <= n ensures acts[..n][..j] == acts[..j] {}
    }
  }

  /**
    When a sweep releases the lock that it took with `acts[b]`, it has called each stat
    registered with its container, with some `acts[k]` since, has drained at least all that
    the stat had been given by then, and has deposited what it drained.  That it has called
    each is the guard of the step; what follows from it is the rest.
   */
  lemma SweepReachesEveryStat(acts: seq<Action>, l: nat, x: nat) returns (b: nat, k: nat)
    requires Next(Run(acts), SweepUnlock(l)) != Run(acts) && x in Run(acts).links[l].stats
    ensures b < k < |acts| && acts[b] == SweepLock(l) && acts[k] == SweepVisit(l, x)
    ensures l < |Run(acts[..b]).links| && Run(acts[..b]).links[l].holder == Free
    ensures forall j :: b < j <= |acts| ==> Sweeps(Run(acts[..j]), l)
    ensures x < |Run(acts[..k]).stats| && x < |Run(acts).stats|
    ensures |Run(acts[..k]).stats[x].history| <= Run(acts).stats[x].drained && Run(acts).stats[x].swept == NOTHING
  {
    hide Run, LinkOk, StatOk, Books, AllOk;
    RunReaches(acts);
    RunBooks(acts);
    var s := Run(acts);
    assert SweepOk(s, l);
    VisitedBelong(s, l);
    NothingInFlight(s, l, x);
    b := LockOf(acts, l);
    k := VisitOf(acts, l, x);
  }

  lemma NothingInFlight(s: State, l: nat, x: nat)
    requires Books(s) && x < |s.stats| && l < |s.links| && s.stats[x].link == l && s.links[l].visit == NoVisit
    ensures s.stats[x].swept == NOTHING
  {
    assert Quiet(s, x);
  }
}
