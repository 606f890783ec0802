/**
  Where a stat is registered, in every reachable state of `Registry`.
 */
module RegistryProof {
  import opened Words
  import opened History
  import opened Registry
  import opened Sequences

  // ----- the invariant -----

  /** In the main set, on the pending list, or in the lock holder's drain in progress. */
  predicate Registered(lk: Link, x: nat) {
    x in lk.stats || x in lk.pending || x in lk.drain
  }

  /** Whether a stat must be registered, from how far its owner is. */
  predicate Belongs(st: Stat) {
    && st.live
    && (st.pc in {PushFlag, SetLinkedFree, InsertFlag, SetLinkedHeld,
                  ResetValue, Take, Deposit, WaitLock, UnlinkDrain, Erase}
        || (st.pc == Idle && st.linked))
  }

  /** The three places are duplicate-free and disjoint. */
  predicate Separate(lk: Link) {
    && NoRepeats(lk.pending) && NoRepeats(lk.drain)
    && (forall x :: x in lk.stats ==> x !in lk.pending && x !in lk.drain)
    && (forall x :: x in lk.pending ==> x !in lk.drain)
  }

  /** On a live container, exactly the stats that belong to it are registered with it. */
  ghost predicate Places(s: State, l: nat)
    requires l < |s.links|
  {
    forall x: nat :: Registered(s.links[l], x) <==> x < |s.stats| && s.stats[x].link == l && Belongs(s.stats[x])
  }

  /** What a link says of itself. */
  ghost predicate LinkShape(lk: Link) {
    && Separate(lk)
    && (!lk.alive ==> lk.stats == {} && lk.pending == [] && lk.drain == [])
    && (lk.holder in {Sweep, Destroyer} || lk.drainPc != NotDraining || lk.pendingLock != NOBODY ==> lk.alive)
    && (lk.drainPc != NotDraining ==> lk.holder != Free)
    && (lk.drain != [] ==> lk.drainPc in {InsertNext, FlagNext})
    && (lk.visit.Visit? ==> lk.holder == Sweep && lk.drainPc == NotDraining && lk.visit.x in lk.stats)
  }

  ghost predicate LinkOk(s: State, l: nat)
    requires l < |s.links|
  {
    var lk := s.links[l];
    && LinkShape(lk)
    && (lk.alive ==> Places(s, l))
    && (lk.holder.Owner? ==>
          lk.holder.x < |s.stats| && s.stats[lk.holder.x].link == l && HoldsLock(s.stats[lk.holder.x].pc))
    && (lk.pendingLock != NOBODY ==>
          && 0 <= lk.pendingLock < |s.stats|
          && s.stats[lk.pendingLock].link == l && s.stats[lk.pendingLock].pc == PushFlag)
  }

  /** What a stat and its link say of one another. */
  ghost predicate Agree(e: Ends, x: nat) {
    var st, lk := e.st, e.lk;
    && (!st.live ==> st.pc == Idle && !st.linked)
    && (Linking(st.pc) ==> !st.linked)
    && (st.pc != Idle && !Linking(st.pc) ==> st.linked)
    && (HoldsLock(st.pc) <==> lk.holder == Owner(x))
    && (st.pc == PushFlag <==> lk.pendingLock == x)
    && (HoldsLock(st.pc) && st.pc !in {LinkDrain, UnlinkDrain} ==> lk.drainPc == NotDraining)
    && (st.pc == Erase || (st.pc == UnlinkDrain && lk.drainPc != SwapPending) ==> x !in lk.pending)
    && (lk.holder == Destroyer ==> !Linking(st.pc))
  }

  ghost predicate StatOk(s: State, x: nat)
    requires x < |s.stats|
  {
    var st := s.stats[x];
    st.link < |s.links| && st.ledger < |s.ledgers| && Agree(Ends(st, s.links[st.link]), x)
  }

  ghost predicate AllOk(s: State) {
    && !s.failed
    && (forall l :: 0 <= l < |s.links| ==> LinkOk(s, l))
    && (forall x :: 0 <= x < |s.stats| ==> StatOk(s, x))
  }

  // ----- frames -----

  /** `s'` differs from `s` in one link and in one stat of that link. */
  ghost predicate Local(s: State, s': State, l: nat, x: nat) {
    && l < |s.links| && |s'.links| == |s.links| && |s'.stats| == |s.stats| && |s'.ledgers| == |s.ledgers|
    && s'.failed == s.failed
    && (forall k :: 0 <= k < |s.links| && k != l ==> s'.links[k] == s.links[k])
    && (forall y :: 0 <= y < |s.stats| && y != x ==> s'.stats[y] == s.stats[y])
    && (x < |s.stats| ==> s.stats[x].link == l && s'.stats[x].link == l)
  }

  lemma PlacesKept(s: State, s': State, l: nat, x: nat)
    requires Local(s, s', l, x) && Places(s, l)
    requires forall y: nat :: y != x ==> (Registered(s'.links[l], y) <==> Registered(s.links[l], y))
    requires Registered(s'.links[l], x) <==> x < |s.stats| && Belongs(s'.stats[x])
    ensures Places(s', l)
  {}

  lemma LocalKeeps(s: State, s': State, l: nat, x: nat)
    requires AllOk(s) && Local(s, s', l, x) && LinkOk(s', l)
    requires forall y :: 0 <= y < |s'.stats| && s'.stats[y].link == l ==> StatOk(s', y)
    ensures AllOk(s')
  {
    forall k | 0 <= k < |s'.links| ensures LinkOk(s', k) {
      assert LinkOk(s, k);
      assert k != l && s.links[k].alive ==> Places(s', k);
    }
    forall y | 0 <= y < |s'.stats| ensures StatOk(s', y) {
      assert StatOk(s, y);
    }
  }

  // ----- owner steps -----

  /** What the invariant says of a stat and of its own link. */
  lemma OwnFacts(s: State, x: nat)
    requires AllOk(s) && StatAt(s, x)
    ensures LinkOk(s, s.stats[x].link) && StatOk(s, x)
    ensures s.links[s.stats[x].link].alive ==> (Registered(s.links[s.stats[x].link], x) <==> Belongs(s.stats[x]))
  {
    assert LinkOk(s, s.stats[x].link);
  }

  /** One owner's step on its stat and link. */
  function OwnerEnds(e: Ends, x: nat, fails: bool): Ends {
    if Deferring(e.st.pc) then Defer(e, x, fails)
    else if Linking(e.st.pc) then Register(e, x)
    else Unregister(e, x)
  }

  ghost predicate Consistent(e: Ends, x: nat) {
    LinkShape(e.lk) && Agree(e, x) && (e.lk.alive ==> (Registered(e.lk, x) <==> Belongs(e.st)))
  }

  /** An owner's step keeps its own end, can fail no CHECK, and moves no other stat. */
  lemma DeferConsistent(e: Ends, x: nat, fails: bool)
    requires Consistent(e, x) && Deferring(e.st.pc) && e.st.live
    ensures Consistent(Defer(e, x, fails), x)
    ensures forall y: nat :: y != x ==> (Registered(Defer(e, x, fails).lk, y) <==> Registered(e.lk, y))
  {
    hide Consistent, Defer, Registered;
    if e.st.pc == PushPending {
      PushConsistent(e, x, fails);
    } else {
      FlagConsistent(e, x, fails);
    }
  }

  lemma PushConsistent(e: Ends, x: nat, fails: bool)
    requires Consistent(e, x) && e.st.pc == PushPending && e.st.live
    ensures Consistent(Defer(e, x, fails), x)
    ensures forall y: nat :: y != x ==> (Registered(Defer(e, x, fails).lk, y) <==> Registered(e.lk, y))
  {}

  lemma FlagConsistent(e: Ends, x: nat, fails: bool)
    requires Consistent(e, x) && e.st.pc in {TryLock, PushFlag, SetLinkedFree} && e.st.live
    ensures Consistent(Defer(e, x, fails), x)
    ensures forall y: nat :: y != x ==> (Registered(Defer(e, x, fails).lk, y) <==> Registered(e.lk, y))
  {}

  lemma RegisterConsistent(e: Ends, x: nat)
    requires Consistent(e, x) && Linking(e.st.pc) && !Deferring(e.st.pc) && e.st.live
    ensures !CheckFires(e, x) && Consistent(Register(e, x), x)
    ensures forall y: nat :: y != x ==> (Registered(Register(e, x).lk, y) <==> Registered(e.lk, y))
  {}

  lemma UnregisterConsistent(e: Ends, x: nat)
    requires Consistent(e, x) && e.st.pc != Idle && !Linking(e.st.pc) && e.st.live
    ensures !CheckFires(e, x) && Consistent(Unregister(e, x), x)
    ensures forall y: nat :: y != x ==> (Registered(Unregister(e, x).lk, y) <==> Registered(e.lk, y))
  {}

  lemma OthersAgree(e: Ends, x: nat, fails: bool, st: Stat, y: nat)
    requires Consistent(e, x) && Agree(Ends(st, e.lk), y) && x != y
    ensures Agree(Ends(st, OwnerEnds(e, x, fails).lk), y)
  {
    hide LinkShape, Registered, Belongs;
  }

  /** The links that an owner's step leaves name their owners, too. */
  lemma OwnerNames(e: Ends, x: nat, fails: bool)
    requires Consistent(e, x) && e.st.pc != Idle
    ensures var e' := OwnerEnds(e, x, fails);
      && e'.st.link == e.st.link && e'.st.live == e.st.live && e'.st.ledger == e.st.ledger
      && (e'.lk.holder.Owner? ==> e'.lk.holder == e.lk.holder || e'.lk.holder == Owner(x))
      && (e'.lk.pendingLock != NOBODY ==> e'.lk.pendingLock == e.lk.pendingLock || e'.lk.pendingLock == x)
  {
    hide LinkShape, Registered, Belongs;
  }

  lemma EndsKeep(s: State, x: nat, fails: bool)
    requires AllOk(s) && StatAt(s, x) && s.stats[x].pc !in {Idle, ResetValue, Take, Deposit}
    ensures !CheckFires(EndsOf(s, x), x)
    ensures AllOk(PutEnds(s, x, OwnerEnds(EndsOf(s, x), x, fails)))
  {
    hide Defer, Register, Unregister, LinkShape, Agree;
    var e := EndsOf(s, x);
    var s' := PutEnds(s, x, OwnerEnds(e, x, fails));
    var l := s.stats[x].link;
    OwnFacts(s, x);
    if Deferring(e.st.pc) {
      DeferConsistent(e, x, fails);
    } else if Linking(e.st.pc) {
      RegisterConsistent(e, x);
    } else {
      UnregisterConsistent(e, x);
    }
    OwnerNames(e, x, fails);
    OwnerHolds(e, x, fails);
    if s'.links[l].alive {
      AliveBefore(e, x, fails);
      PlacesKept(s, s', l, x);
    }
    forall y | 0 <= y < |s'.stats| && s'.stats[y].link == l ensures StatOk(s', y) {
      assert StatOk(s, y);
      if y != x {
        OthersAgree(e, x, fails, s.stats[y], y);
      }
    }
    LocalKeeps(s, s', l, x);
  }

  lemma AliveBefore(e: Ends, x: nat, fails: bool)
    ensures OwnerEnds(e, x, fails).lk.alive == e.lk.alive
  {}

  lemma OwnerHolds(e: Ends, x: nat, fails: bool)
    requires Consistent(OwnerEnds(e, x, fails), x)
    ensures var e' := OwnerEnds(e, x, fails);
      (e'.lk.holder == Owner(x) ==> HoldsLock(e'.st.pc)) && (e'.lk.pendingLock == x ==> e'.st.pc == PushFlag)
  {
    hide OwnerEnds;
  }

  lemma DrainConsistent(lk: Link)
    requires LinkShape(lk)
    ensures !DrainCheckFires(lk) && LinkShape(Drain(lk))
    ensures forall y: nat :: Registered(Drain(lk), y) <==> Registered(lk, y)
  {
    if lk.drain != [] {
      assert lk.drain == [lk.drain[0]] + lk.drain[1..];
    }
  }

  lemma DrainStepKeeps(s: State, l: nat)
    requires AllOk(s) && l < |s.links|
    ensures !DrainCheckFires(s.links[l]) && AllOk(PutLink(s, l, Drain(s.links[l])))
  {
    hide LinkShape;
    var s' := PutLink(s, l, Drain(s.links[l]));
    var lk := s.links[l];
    assert LinkOk(s, l);
    DrainConsistent(lk);
    if lk.alive {
      assert !Registered(lk, |s.stats|);
      PlacesKept(s, s', l, |s.stats|);
    }
    DrainKeepsStats(s, l);
    hide StatOk, Drain;
    LocalKeeps(s, s', l, |s.stats|);
  }

  lemma DrainKeepsStats(s: State, l: nat)
    requires AllOk(s) && l < |s.links|
    ensures var s' := PutLink(s, l, Drain(s.links[l]));
      forall y :: 0 <= y < |s'.stats| && s'.stats[y].link == l ==> StatOk(s', y)
  {
    hide LinkShape, Places;
    var s' := PutLink(s, l, Drain(s.links[l]));
    assert LinkOk(s, l);
    DrainConsistent(s.links[l]);
    forall y | 0 <= y < |s'.stats| && s'.stats[y].link == l ensures StatOk(s', y) {
      assert StatOk(s, y);
    }
  }

  // ----- steps that move nothing between the three places -----

  predicate SameStat(a: Stat, b: Stat) {
    a.live == b.live && a.link == b.link && a.linked == b.linked && a.pc == b.pc
  }

  predicate SameLink(a: Link, b: Link) {
    && a.holder == b.holder && a.alive == b.alive && a.stats == b.stats && a.pending == b.pending
    && a.pendingLock == b.pendingLock && a.drain == b.drain && a.drainPc == b.drainPc
  }

  ghost predicate SameShape(s: State, s': State) {
    && |s'.links| == |s.links| && |s'.stats| == |s.stats| && |s'.ledgers| >= |s.ledgers| && s'.failed == s.failed
    && (forall l :: 0 <= l < |s.links| ==> SameLink(s.links[l], s'.links[l]))
    && (forall x :: 0 <= x < |s.stats| ==> SameStat(s.stats[x], s'.stats[x]) && s'.stats[x].ledger < |s'.ledgers|)
  }

  ghost predicate VisitOk(lk: Link) {
    lk.visit.Visit? ==> lk.holder == Sweep && lk.drainPc == NotDraining && lk.visit.x in lk.stats
  }

  lemma ShapeKeeps(s: State, s': State)
    requires AllOk(s) && SameShape(s, s') && forall l :: 0 <= l < |s'.links| ==> VisitOk(s'.links[l])
    ensures AllOk(s')
  {
    forall l | 0 <= l < |s'.links| ensures LinkOk(s', l) {
      assert LinkOk(s, l) && SameLink(s.links[l], s'.links[l]);
      if s.links[l].alive {
        forall x: nat
          ensures Registered(s'.links[l], x) <==> x < |s'.stats| && s'.stats[x].link == l && Belongs(s'.stats[x])
        {
          assert Registered(s'.links[l], x) <==> Registered(s.links[l], x);
        }
      }
      assert VisitOk(s'.links[l]);
    }
    forall x | 0 <= x < |s'.stats| ensures StatOk(s', x) {
      assert StatOk(s, x);
    }
  }

  lemma VisitsOk(s: State)
    requires AllOk(s)
    ensures forall l :: 0 <= l < |s.links| ==> VisitOk(s.links[l])
  {
    forall l | 0 <= l < |s.links| ensures VisitOk(s.links[l]) {
      assert LinkOk(s, l);
    }
  }

  lemma RefsKeep(s: State, l: nat)
    requires AllOk(s)
    ensures AllOk(IncRef(s, l)) && AllOk(DecRef(s, l))
  {
    hide LinkOk, StatOk, Places;
    VisitsOk(s);
    LedgersBound(s);
    ShapeKeeps(s, IncRef(s, l));
    ShapeKeeps(s, DecRef(s, l));
  }

  lemma LedgersBound(s: State)
    requires AllOk(s)
    ensures forall x :: 0 <= x < |s.stats| ==> s.stats[x].ledger < |s.ledgers| && s.stats[x].link < |s.links|
  {
    forall x | 0 <= x < |s.stats| ensures s.stats[x].ledger < |s.ledgers| && s.stats[x].link < |s.links| {
      assert StatOk(s, x);
    }
  }

  predicate IsValueStep(a: Action) {
    a.NewLedger? || a.AddValue? || a.SweepVisit? || a.SweepTake? || a.SweepDeposit?
  }

  lemma VisitStepKeeps(s: State, a: Action)
    requires AllOk(s) && (a.SweepVisit? || a.SweepDeposit?)
    ensures AllOk(Next(s, a))
  {
    hide LinkOk, StatOk, Places, Passed, Exact;
    VisitsOk(s);
    LedgersBound(s);
    ShapeKeeps(s, Next(s, a));
  }

  lemma GiveStepKeeps(s: State, a: Action)
    requires AllOk(s) && (a.NewLedger? || a.AddValue? || a.SweepTake?)
    ensures AllOk(Next(s, a))
  {
    hide LinkOk, StatOk, Places, Passed, Exact;
    VisitsOk(s);
    LedgersBound(s);
    ShapeKeeps(s, Next(s, a));
  }

  lemma ValueStepKeeps(s: State, a: Action)
    requires AllOk(s) && IsValueStep(a)
    ensures AllOk(Next(s, a))
  {
    hide AllOk, Next;
    if a.SweepVisit? || a.SweepDeposit? {
      VisitStepKeeps(s, a);
    } else {
      GiveStepKeeps(s, a);
    }
  }

  // ----- steps that begin or end something -----

  /** An owner moves on between two points where it holds no lock and belongs, or not, to the same container. */
  lemma QuietMoveKeeps(s: State, s': State, x: nat)
    requires AllOk(s) && StatAt(s, x) && Local(s, s', s.stats[x].link, x) && s'.links == s.links
    requires s'.stats[x].live && s'.stats[x].linked == s.stats[x].linked && s'.stats[x].ledger == s.stats[x].ledger
    requires s.stats[x].pc in {Idle, ResetValue, Take, Deposit}
    requires s'.stats[x].pc in {TryLock, ResetValue, Take, Deposit, WaitLock}
    requires Belongs(s'.stats[x]) == Belongs(s.stats[x])
    requires s'.stats[x].pc == TryLock ==> !s.stats[x].linked && s.links[s.stats[x].link].holder != Destroyer
    requires s'.stats[x].pc != TryLock ==> s.stats[x].linked
    ensures AllOk(s')
  {
    var l := s.stats[x].link;
    OwnFacts(s, x);
    if s.links[l].alive {
      PlacesKept(s, s', l, x);
    }
    forall y | 0 <= y < |s'.stats| && s'.stats[y].link == l ensures StatOk(s', y) {
      assert StatOk(s, y);
    }
    LocalKeeps(s, s', l, x);
  }

  predicate IsOwnerBegin(a: Action) {
    a.BeginLink? || a.BeginUnlink? || a.OwnerTake?
  }

  lemma OwnerBeginKeeps(s: State, a: Action)
    requires AllOk(s) && IsOwnerBegin(a)
    ensures AllOk(Next(s, a))
  {
    hide Passed, Exact, LinkOk, Places;
    if Next(s, a) != s {
      assert StatOk(s, a.x);
      QuietMoveKeeps(s, Next(s, a), a.x);
    }
  }

  lemma OwnerStepKeeps(s: State, x: nat, fails: bool)
    requires AllOk(s) && StatAt(s, x) && s.stats[x].pc != Idle
    ensures AllOk(NextOwner(s, x, fails))
  {
    hide LinkOk, Places, Defer, Register, Unregister, LinkShape;
    var pc := s.stats[x].pc;
    if pc == Take {
    } else if pc in {ResetValue, Deposit} {
      assert StatOk(s, x);
      QuietMoveKeeps(s, NextOwner(s, x, fails), x);
    } else {
      EndsKeep(s, x, fails);
    }
  }

  predicate IsLockStep(a: Action) {
    a.SweepLock? || a.SweepUnlock? || a.DestroyLock? || a.DestroyBody?
  }

  lemma LockStepKeeps(s: State, a: Action)
    requires AllOk(s) && IsLockStep(a)
    ensures AllOk(Next(s, a))
  {
    var s', l := Next(s, a), a.l;
    if s' != s {
      assert LinkOk(s, l);
      var lk := s.links[l];
      if lk.pendingLock != NOBODY {
        assert StatOk(s, lk.pendingLock);
      }
      assert lk.alive ==> !Registered(lk, |s.stats|);
      if s'.links[l].alive {
        PlacesKept(s, s', l, |s.stats|);
      }
      forall y | 0 <= y < |s'.stats| && s'.stats[y].link == l ensures StatOk(s', y) {
        assert StatOk(s, y);
      }
      LocalKeeps(s, s', l, |s.stats|);
    }
  }

  lemma NewContainerKeeps(s: State)
    requires AllOk(s)
    ensures AllOk(Next(s, NewContainer))
  {
    var s' := Next(s, NewContainer);
    LedgersBound(s);
    forall l | 0 <= l < |s'.links| ensures LinkOk(s', l) {
      if l < |s.links| {
        assert LinkOk(s, l);
        assert s.links[l].alive ==> Places(s', l);
      } else {
        assert forall x: nat :: !Registered(s'.links[l], x);
      }
    }
    forall x | 0 <= x < |s'.stats| ensures StatOk(s', x) {
      assert StatOk(s, x);
    }
  }

  lemma AppendStatKeeps(s: State, l: nat, g: nat)
    requires AllOk(s) && l < |s.links| && g < |s.ledgers|
    ensures AllOk(s.(stats := s.stats + [NewStat(l, g)]))
  {
    var s' := s.(stats := s.stats + [NewStat(l, g)]);
    forall k | 0 <= k < |s'.links| ensures LinkOk(s', k) {
      assert LinkOk(s, k);
      assert s.links[k].alive ==> Places(s', k);
    }
    forall x | 0 <= x < |s'.stats| ensures StatOk(s', x) {
      if x < |s.stats| {
        assert StatOk(s, x);
      } else {
        assert LinkOk(s, l);
      }
    }
  }

  /** A resting stat is registered nowhere, so it may be destroyed or change its link. */
  lemma RestingMoves(s: State, x: nat, st: Stat)
    requires AllOk(s) && Resting(s, x) && st.link < |s.links| && st.ledger < |s.ledgers|
    requires st.pc == Idle && !st.linked
    ensures AllOk(PutStat(s, x, st))
  {
    var s' := PutStat(s, x, st);
    forall l | 0 <= l < |s'.links| ensures LinkOk(s', l) {
      assert LinkOk(s, l);
      if s.links[l].alive {
        forall y: nat
          ensures Registered(s'.links[l], y) <==> y < |s'.stats| && s'.stats[y].link == l && Belongs(s'.stats[y])
        {
          assert Registered(s.links[l], y) <==> y < |s.stats| && s.stats[y].link == l && Belongs(s.stats[y]);
        }
      }
    }
    forall y | 0 <= y < |s'.stats| ensures StatOk(s', y) {
      assert StatOk(s, y);
      assert LinkOk(s, s'.stats[y].link);
    }
  }

  lemma ReplaceKeeps(s: State, x: nat, y: nat)
    requires AllOk(s) && x != y && Resting(s, x) && Resting(s, y)
    ensures AllOk(Replace(s, x, y))
  {
    hide LinkOk, StatOk, Places;
    var a, b := s.stats[x], s.stats[y];
    RefsKeep(s, a.link);
    RefsKeep(DecRef(s, a.link), b.link);
    var s2 := IncRef(DecRef(s, a.link), b.link);
    RestingMoves(s2, x, a.(link := b.link, ledger := b.ledger, history := [], drained := 0));
    RestingMoves(PutStat(s2, x, a.(link := b.link, ledger := b.ledger, history := [], drained := 0)),
                 y, b.(ledger := a.ledger, history := [], drained := 0));
  }

  lemma LifetimeStepKeeps(s: State, a: Action)
    requires AllOk(s) && (a.Construct? || a.MoveConstruct? || a.DestroyStat? || a.MoveAssign? || a.ReleaseContainer?)
    ensures AllOk(Next(s, a))
  {
    hide LinkOk, StatOk, Places, Replace;
    if Next(s, a) != s {
      match a
      case Construct(l, g) =>
        AppendStatKeeps(s, l, g);
        RefsKeep(s.(stats := s.stats + [NewStat(l, g)]), l);
      case MoveConstruct(x) =>
        var l, g := s.stats[x].link, s.stats[x].ledger;
        AppendStatKeeps(s, l, g);
        RefsKeep(s.(stats := s.stats + [NewStat(l, g)]), l);
      case DestroyStat(x) =>
        RestingMoves(s, x, s.stats[x].(live := false));
        RefsKeep(PutStat(s, x, s.stats[x].(live := false)), s.stats[x].link);
      case MoveAssign(x, y) => ReplaceKeeps(s, x, y);
      case ReleaseContainer(l) =>
        var s1 := PutLink(s, l, s.links[l].(owned := false));
        VisitsOk(s);
        LedgersBound(s);
        ShapeKeeps(s, s1);
        RefsKeep(s1, l);
      case _ =>
    }
  }

  lemma StepKeeps(s: State, a: Action)
    requires AllOk(s)
    ensures AllOk(Next(s, a))
  {
    hide LinkOk, StatOk, NextOwner, Drain, Replace;
    match a
    case NewContainer => NewContainerKeeps(s);
    case OwnerStep(x, fails) =>
      if StatAt(s, x) && s.stats[x].pc != Idle {
        OwnerStepKeeps(s, x, fails);
      }
    case DrainStep(l) =>
      if l < |s.links| {
        DrainStepKeeps(s, l);
      }
    case _ =>
      if IsValueStep(a) {
        ValueStepKeeps(s, a);
      } else if IsOwnerBegin(a) {
        OwnerBeginKeeps(s, a);
      } else if IsLockStep(a) {
        LockStepKeeps(s, a);
      } else {
        LifetimeStepKeeps(s, a);
      }
  }

  lemma {:induction false} RunKeeps(acts: seq<Action>)
    ensures AllOk(Run(acts))
  {
    if acts != [] {
      RunKeeps(acts[..|acts| - 1]);
      StepKeeps(Run(acts[..|acts| - 1]), acts[|acts| - 1]);
    }
  }

  // ----- what holds of every run -----

  /** No CHECK ever fires, in link(), in unlink() or in completePendingLink(). */
  lemma NoCheckFires(acts: seq<Action>)
    ensures !Run(acts).failed
  {
    hide Run;
    RunKeeps(acts);
  }

  /**
    No CHECK can fire.  On a live container a stat whose link() has returned and whose
    unlink() has not begun is in exactly one of the main set, the pending list and the
    drain in progress; a stat at rest is in none, on any container.
   */
  lemma RegisteredExactlyOnce(acts: seq<Action>, x: nat, l: nat)
    requires x < |Run(acts).stats| && l < |Run(acts).links| && Run(acts).links[l].alive
    ensures var s := Run(acts);
      var st, lk := s.stats[x], s.links[l];
      && !s.failed
      && NoRepeats(lk.pending) && NoRepeats(lk.drain)
      && (st.pc == Idle && st.linked && st.link == l ==>
            && Registered(lk, x)
            && !(x in lk.stats && x in lk.pending) && !(x in lk.stats && x in lk.drain)
            && !(x in lk.pending && x in lk.drain))
      && (Registered(lk, x) ==> st.live && st.link == l && (st.linked || Linking(st.pc)))
      && (st.pc == Idle && !st.linked ==> !Registered(lk, x))
  {
    hide Run;
    RunKeeps(acts);
    var s := Run(acts);
    assert LinkOk(s, l) && StatOk(s, x);
    assert Registered(s.links[l], x) <==> s.stats[x].link == l && Belongs(s.stats[x]);
  }

  /** A sweep only ever calls a stat that exists and whose unlink() has not returned. */
  lemma SweepsCallLinkedStats(acts: seq<Action>, l: nat)
    requires l < |Run(acts).links| && Run(acts).links[l].visit.Visit?
    ensures var s := Run(acts);
      var x := s.links[l].visit.x;
      && x < |s.stats| && s.stats[x].live && s.stats[x].link == l && x in s.links[l].stats
      && (s.stats[x].linked || Linking(s.stats[x].pc))
      && s.links[l].alive && s.links[l].holder == Sweep
      && s.stats[x].pc !in {Erase, EraseFlag, SetUnlinked}
  {
    hide Run;
    RunKeeps(acts);
    var s := Run(acts);
    assert LinkOk(s, l);
    var x := s.links[l].visit.x;
    assert Registered(s.links[l], x);
    assert StatOk(s, x);
  }
}
