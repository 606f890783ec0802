/**
  The unlocked "empty" flag that lets aggregate() skip a container.  A flag that reads true
  hides nothing, in a whole run, exactly when no unlink() stores true over the false of a
  link() that has announced a pending stat.  That is so whenever the owner of a container
  serializes link() and unlink(); a run shows that it is not so otherwise.
 */
module EmptyFlag {
  import opened Registry
  import opened RegistryProof

  predicate Vacant(lk: Link) {
    lk.stats == {} && lk.pending == [] && lk.drain == []
  }

  /** A link() that has registered its stat and is about to clear the flag. */
  predicate AboutToClear(st: Stat) {
    st.pc in {PushFlag, InsertFlag}
  }

  /** A stat that a true flag may hide: its own link() is about to clear the flag. */
  predicate Clearing(lk: Link, st: Stat, x: nat) {
    st.pc == PushFlag || (st.pc == InsertFlag && x in lk.stats)
  }

  /** A flag that reads true hides nothing but stats whose own link() is about to clear it. */
  ghost predicate FlagOk(s: State, l: nat)
    requires l < |s.links|
  {
    s.links[l].alive && s.links[l].empty ==>
      forall x: nat :: Registered(s.links[l], x) ==> x < |s.stats| && Clearing(s.links[l], s.stats[x], x)
  }

  /**
    An unlink() about to set the flag has left the main set empty, and while a link() holds
    the pending list's lock its stat is the only one there.
   */
  predicate EraserOk(s: State, x: nat)
    requires x < |s.stats|
  {
    var st := s.stats[x];
    st.link < |s.links| && s.links[st.link].alive ==>
      && (st.pc == EraseFlag ==> s.links[st.link].stats == {})
      && (st.pc == PushFlag ==> s.links[st.link].pending == [x])
  }

  predicate ErasersOk(s: State) {
    forall x :: 0 <= x < |s.stats| ==> EraserOk(s, x)
  }

  ghost predicate FlagsOk(s: State) {
    forall l :: 0 <= l < |s.links| ==> FlagOk(s, l)
  }

  /**
    The store that does harm: unlink() sets the flag of a container that has a pending stat
    whose link() is past its own store to the flag.
   */
  predicate Overwrites(s: State, a: Action) {
    && a.OwnerStep? && StatAt(s, a.x) && s.stats[a.x].pc == EraseFlag
    && var lk := s.links[s.stats[a.x].link]; lk.alive && lk.pending != [] && lk.pendingLock == NOBODY
  }

  // ----- an owner's step -----

  /** What an owner's step does to what the flag depends on. */
  predicate FlagEnds(e: Ends, e': Ends, x: nat) {
    && e'.lk.alive == e.lk.alive && e'.st.link == e.st.link
    && (e'.lk.alive && e'.st.pc == EraseFlag ==> e'.lk.stats == {})
    && (e'.lk.alive && e'.st.pc == PushFlag ==> e'.lk.pending == [x])
    && (e'.lk.stats != e.lk.stats ==> HoldsLock(e.st.pc) && e.st.pc != EraseFlag)
    && (e'.lk.pending != e.lk.pending ==> e.lk.pendingLock == NOBODY)
  }

  lemma DeferFlag(e: Ends, x: nat, fails: bool)
    requires Consistent(e, x) && Deferring(e.st.pc)
    ensures FlagEnds(e, Defer(e, x, fails), x)
  {
    hide Separate, Registered, Belongs;
  }

  lemma RegisterFlag(e: Ends, x: nat)
    requires Consistent(e, x) && Linking(e.st.pc) && !Deferring(e.st.pc)
    ensures FlagEnds(e, Register(e, x), x)
  {
    hide Separate, Registered, Belongs;
  }

  lemma UnregisterFlag(e: Ends, x: nat)
    requires Consistent(e, x) && e.st.pc !in {Idle, ResetValue, Take, Deposit} && !Linking(e.st.pc)
    requires e.lk.alive && e.st.pc == EraseFlag ==> e.lk.stats == {}
    ensures FlagEnds(e, Unregister(e, x), x)
  {
    hide Separate, Registered, Belongs;
  }

  lemma OwnerFlag(e: Ends, x: nat, fails: bool)
    requires Consistent(e, x) && e.st.pc !in {Idle, ResetValue, Take, Deposit}
    requires e.lk.alive && e.st.pc == EraseFlag ==> e.lk.stats == {}
    ensures FlagEnds(e, OwnerEnds(e, x, fails), x)
  {
    hide Consistent, FlagEnds, Defer, Register, Unregister;
    if Deferring(e.st.pc) {
      DeferFlag(e, x, fails);
    } else if Linking(e.st.pc) {
      RegisterFlag(e, x);
    } else {
      UnregisterFlag(e, x);
    }
  }

  /**
    An owner's step that leaves the flag true: it set the flag, or it found it true and may
    have registered its stat.
   */
  predicate TrueAfter(e: Ends, e': Ends, x: nat) {
    e'.lk.alive && e'.lk.empty ==>
      || (e.st.pc == EraseFlag && e'.lk == e.lk.(empty := true) && e.lk.drain == [])
      || (e.st.pc != EraseFlag && e.lk.empty && !AboutToClear(e.st)
          && (Registered(e'.lk, x) && !Registered(e.lk, x) ==> Registers(e, e', x)))
  }

  /** The two steps that register a stat. */
  predicate Registers(e: Ends, e': Ends, x: nat) {
    || (e.st.pc == PushPending && e.lk.pendingLock == NOBODY && (e.lk.pending == [] ==> e'.st.pc == PushFlag))
    || (e.st.pc == Insert && (e.lk.stats == {} ==> e'.st.pc == InsertFlag && x in e'.lk.stats))
  }

  lemma DeferTrue(e: Ends, x: nat, fails: bool)
    requires Consistent(e, x) && Deferring(e.st.pc)
    ensures TrueAfter(e, Defer(e, x, fails), x)
  {
    hide Separate, Belongs;
  }

  lemma RegisterTrue(e: Ends, x: nat)
    requires Consistent(e, x) && Linking(e.st.pc) && !Deferring(e.st.pc)
    ensures TrueAfter(e, Register(e, x), x)
  {
    hide Separate, Belongs;
  }

  lemma UnregisterTrue(e: Ends, x: nat)
    requires Consistent(e, x) && e.st.pc !in {Idle, ResetValue, Take, Deposit} && !Linking(e.st.pc)
    ensures TrueAfter(e, Unregister(e, x), x)
  {
    hide Separate, Belongs;
  }

  lemma OwnerTrue(e: Ends, x: nat, fails: bool)
    requires Consistent(e, x) && e.st.pc !in {Idle, ResetValue, Take, Deposit}
    ensures TrueAfter(e, OwnerEnds(e, x, fails), x)
  {
    hide Consistent, TrueAfter, Defer, Register, Unregister;
    if Deferring(e.st.pc) {
      DeferTrue(e, x, fails);
    } else if Linking(e.st.pc) {
      RegisterTrue(e, x);
    } else {
      UnregisterTrue(e, x);
    }
  }

  /** Only one owner holds a link's lock. */
  lemma OneHolder(s: State, x: nat, y: nat)
    requires AllOk(s) && x < |s.stats| && y < |s.stats| && s.stats[x].link == s.stats[y].link
    requires HoldsLock(s.stats[x].pc) && HoldsLock(s.stats[y].pc)
    ensures x == y
  {
    assert StatOk(s, x) && StatOk(s, y);
  }

  lemma OwnerStepErasers(s: State, x: nat, fails: bool)
    requires AllOk(s) && ErasersOk(s) && StatAt(s, x) && s.stats[x].pc !in {Idle, ResetValue, Take, Deposit}
    ensures ErasersOk(PutEnds(s, x, OwnerEnds(EndsOf(s, x), x, fails)))
  {
    hide AllOk, OwnerEnds, Vacant;
    var s' := PutEnds(s, x, OwnerEnds(EndsOf(s, x), x, fails));
    OwnConsistent(s, x);
    assert EraserOk(s, x);
    OwnerFlag(EndsOf(s, x), x, fails);
    forall y | 0 <= y < |s'.stats| ensures EraserOk(s', y) {
      assert EraserOk(s, y);
      if y != x && s.stats[y].link == s.stats[x].link {
        if s.stats[y].pc == EraseFlag && HoldsLock(s.stats[x].pc) {
          OneHolder(s, x, y);
        } else if s.stats[y].pc == PushFlag {
          PusherHolds(s, y);
        }
      }
    }
  }

  lemma OwnConsistent(s: State, x: nat)
    requires AllOk(s) && StatAt(s, x)
    ensures Consistent(EndsOf(s, x), x)
  {
    OwnFacts(s, x);
  }

  /** A link() about to clear the flag holds the pending list's lock, or the registry's. */
  lemma PusherHolds(s: State, y: nat)
    requires AllOk(s) && y < |s.stats| && AboutToClear(s.stats[y])
    ensures s.stats[y].link < |s.links|
    ensures s.stats[y].pc == PushFlag ==> s.links[s.stats[y].link].pendingLock == y
    ensures s.stats[y].pc == InsertFlag ==> s.links[s.stats[y].link].holder == Owner(y)
  {
    assert StatOk(s, y);
  }

  lemma PusherIs(s: State, l: nat)
    requires AllOk(s) && ErasersOk(s) && l < |s.links| && s.links[l].pendingLock != NOBODY
    ensures var y := s.links[l].pendingLock;
      0 <= y < |s.stats| && s.stats[y].pc == PushFlag && s.links[l].pending == [y]
  {
    assert LinkOk(s, l);
    assert EraserOk(s, s.links[l].pendingLock);
  }

  /** What a true flag can hide, by where it is. */
  lemma TrueHides(s: State, l: nat)
    requires AllOk(s) && ErasersOk(s) && l < |s.links| && FlagOk(s, l) && s.links[l].alive && s.links[l].empty
    ensures s.links[l].pending != [] ==> s.links[l].pendingLock != NOBODY
    ensures s.links[l].drain == []
    ensures forall z :: z in s.links[l].stats ==>
              z < |s.stats| && s.stats[z].pc == InsertFlag && s.links[l].holder == Owner(z)
  {
    var lk := s.links[l];
    assert LinkOk(s, l);
    forall z: nat | Registered(lk, z)
      ensures z < |s.stats| && s.stats[z].link == l && Clearing(lk, s.stats[z], z) && EraserOk(s, z)
    {
      PusherHolds(s, z);
    }
    if lk.pending != [] {
      assert Registered(lk, lk.pending[0]);
      PusherHolds(s, lk.pending[0]);
    }
    if lk.drain != [] {
      assert Registered(lk, lk.drain[0]);
      PusherHolds(s, lk.drain[0]);
      assert false;
    }
    forall z | z in lk.stats ensures z < |s.stats| && s.stats[z].pc == InsertFlag && lk.holder == Owner(z) {
      assert Registered(lk, z);
      PusherHolds(s, z);
    }
  }

  /** The stat that its owner registers with a flag that reads true is about to clear it. */
  lemma NewcomerClears(s: State, x: nat, e': Ends)
    requires AllOk(s) && ErasersOk(s) && StatAt(s, x) && FlagOk(s, s.stats[x].link)
    requires var e := EndsOf(s, x); e.lk.alive && e.lk.empty && Registers(e, e', x)
    ensures Clearing(e'.lk, e'.st, x)
  {
    OwnFacts(s, x);
    hide FlagOk, AllOk, LinkOk, ErasersOk;
    var lk := s.links[s.stats[x].link];
    TrueHides(s, s.stats[x].link);
    if s.stats[x].pc == Insert {
      assert lk.holder == Owner(x);
      assert lk.stats == {};
    }
  }

  lemma OwnerStepFlagOk(s: State, x: nat, fails: bool)
    requires AllOk(s) && ErasersOk(s) && StatAt(s, x) && s.stats[x].pc !in {Idle, ResetValue, Take, Deposit}
    requires FlagOk(s, s.stats[x].link) && !Overwrites(s, OwnerStep(x, fails))
    ensures FlagOk(PutEnds(s, x, OwnerEnds(EndsOf(s, x), x, fails)), s.stats[x].link)
  {
    hide AllOk, OwnerEnds, Registers, Consistent, Registered, FlagEnds;
    var l, e := s.stats[x].link, EndsOf(s, x);
    var e' := OwnerEnds(e, x, fails);
    var s' := PutEnds(s, x, e');
    OwnConsistent(s, x);
    assert EraserOk(s, x);
    OwnerTrue(e, x, fails);
    OthersStay(s, x, fails);
    if e'.lk.alive && e'.lk.empty {
      forall y: nat | Registered(e'.lk, y) ensures y < |s'.stats| && Clearing(e'.lk, s'.stats[y], y) {
        if e.st.pc == EraseFlag {
          SetRegisters(e.lk, y);
          SetOverClearing(s, x, y);
        } else if y == x {
          if !Registered(e.lk, x) {
            NewcomerClears(s, x, e');
          }
        } else {
          assert Registered(e.lk, y);
          StillClearing(s, x, y, fails);
        }
      }
    }
  }

  /** An owner's step moves no other stat, nor takes one out of the main set while its own owner has the lock. */
  lemma OthersStay(s: State, x: nat, fails: bool)
    requires AllOk(s) && StatAt(s, x) && s.stats[x].pc !in {Idle, ResetValue, Take, Deposit}
    ensures var e := EndsOf(s, x);
      var e' := OwnerEnds(e, x, fails);
      e'.lk.alive == e.lk.alive && forall y: nat :: y != x ==> (Registered(e'.lk, y) <==> Registered(e.lk, y))
  {
    hide Defer, Register, Unregister, Registered;
    OwnFacts(s, x);
    AliveBefore(EndsOf(s, x), x, fails);
    var e := EndsOf(s, x);
    if Deferring(e.st.pc) {
      DeferConsistent(e, x, fails);
    } else if Linking(e.st.pc) {
      RegisterConsistent(e, x);
    } else {
      UnregisterConsistent(e, x);
    }
  }

  lemma StillClearing(s: State, x: nat, y: nat, fails: bool)
    requires AllOk(s) && ErasersOk(s) && StatAt(s, x) && s.stats[x].pc !in {Idle, ResetValue, Take, Deposit}
    requires y != x && y < |s.stats| && Clearing(s.links[s.stats[x].link], s.stats[y], y)
    requires s.links[s.stats[x].link].alive && Registered(s.links[s.stats[x].link], y)
    ensures Clearing(OwnerEnds(EndsOf(s, x), x, fails).lk, s.stats[y], y)
  {
    hide OwnerEnds;
    OwnConsistent(s, x);
    assert EraserOk(s, x) && LinkOk(s, s.stats[x].link);
    OwnerFlag(EndsOf(s, x), x, fails);
    if s.stats[y].pc == InsertFlag && HoldsLock(s.stats[x].pc) {
      OneHolder(s, x, y);
    }
  }

  lemma SetRegisters(lk: Link, y: nat)
    ensures Registered(lk.(empty := true), y) <==> Registered(lk, y)
  {}

  /** Where unlink() may set the flag over a pending stat. */
  lemma SetOverClearing(s: State, x: nat, y: nat)
    requires AllOk(s) && ErasersOk(s) && StatAt(s, x) && s.stats[x].pc == EraseFlag
    requires !Overwrites(s, OwnerStep(x, false))
    requires var lk := s.links[s.stats[x].link]; lk.alive && lk.drain == [] && Registered(lk, y)
    ensures y != x && y < |s.stats| && s.stats[y].pc == PushFlag
  {
    hide AllOk;
    var l := s.stats[x].link;
    assert EraserOk(s, x);
    PusherIs(s, l);
  }

  lemma OwnerStepFlags(s: State, x: nat, fails: bool)
    requires AllOk(s) && ErasersOk(s) && FlagsOk(s) && StatAt(s, x)
    requires s.stats[x].pc !in {Idle, ResetValue, Take, Deposit} && !Overwrites(s, OwnerStep(x, fails))
    ensures FlagsOk(PutEnds(s, x, OwnerEnds(EndsOf(s, x), x, fails)))
  {
    hide AllOk, ErasersOk, OwnerEnds, Overwrites, Registered;
    var l := s.stats[x].link;
    var s' := PutEnds(s, x, OwnerEnds(EndsOf(s, x), x, fails));
    OwnerStepFlagOk(s, x, fails);
    forall k | 0 <= k < |s'.links| ensures FlagOk(s', k) {
      assert FlagOk(s, k);
      if k != l {
        ElsewhereOk(s, s', k, x);
      }
    }
  }

  lemma ElsewhereOk(s: State, s': State, k: nat, x: nat)
    requires AllOk(s) && k < |s.links| && FlagOk(s, k) && k < |s'.links| && s'.links[k] == s.links[k]
    requires x < |s.stats| && s.stats[x].link != k && |s'.stats| == |s.stats|
    requires forall y :: 0 <= y < |s.stats| && y != x ==> s'.stats[y] == s.stats[y]
    ensures FlagOk(s', k)
  {
    assert LinkOk(s, k);
  }

  /** The other direction: such a store leaves a flag that reads true over a pending stat. */
  lemma OverwriteBreaksFlag(s: State, a: Action)
    requires AllOk(s) && Overwrites(s, a)
    ensures !FlagsOk(Next(s, a))
  {
    hide Separate, LinkShape, Defer, Register;
    var l := s.stats[a.x].link;
    var s' := Next(s, a);
    assert StatOk(s, a.x) && LinkOk(s, l);
    var q := s.links[l].pending[0];
    assert s'.links[l].empty && s'.links[l].alive && s'.links[l].pending == s.links[l].pending;
    assert Registered(s.links[l], q) && Registered(s'.links[l], q);
    assert StatOk(s, q);
    assert !FlagOk(s', l);
  }

  // ----- every other step -----

  /** Every other step leaves what the flag depends on alone, or empties it. */
  ghost predicate FlagStable(s: State, s': State) {
    && |s'.links| == |s.links| && |s'.stats| >= |s.stats|
    && (forall l :: 0 <= l < |s.links| ==>
          s'.links[l].alive ==>
            && s.links[l].alive && s'.links[l].empty == s.links[l].empty && s'.links[l].stats == s.links[l].stats
            && s'.links[l].pending == s.links[l].pending && s'.links[l].drain == s.links[l].drain)
    && (forall l :: 0 <= l < |s.links| ==>
          && (Vacant(s.links[l]) ==> Vacant(s'.links[l])) && (s.links[l].pending == [] ==> s'.links[l].pending == []))
    && (forall x :: 0 <= x < |s'.stats| ==>
          && (x < |s.stats|
              && (AboutToClear(s.stats[x]) || s'.stats[x].pc in {PushFlag, UnlinkDrain, Erase, EraseFlag}) ==>
                s'.stats[x].pc == s.stats[x].pc && s'.stats[x].link == s.stats[x].link
                && (s.stats[x].pc == UnlinkDrain && s.stats[x].link < |s.links|
                    && s.links[s.stats[x].link].drainPc == SwapPending ==>
                      s'.links[s.stats[x].link].drainPc == SwapPending))
          && (x >= |s.stats| ==> s'.stats[x].pc == Idle))
  }

  lemma StableFlags(s: State, s': State)
    requires FlagStable(s, s')
    ensures FlagsOk(s) ==> FlagsOk(s')
    ensures ErasersOk(s) ==> ErasersOk(s')
    ensures PendingsOk(s) ==> PendingsOk(s')
  {
    if FlagsOk(s) {
      forall l | 0 <= l < |s'.links| ensures FlagOk(s', l) {
        assert FlagOk(s, l);
        if s'.links[l].alive && s'.links[l].empty {
          forall x: nat | Registered(s'.links[l], x) ensures x < |s'.stats| && Clearing(s'.links[l], s'.stats[x], x) {
            assert Registered(s.links[l], x) && AboutToClear(s.stats[x]);
          }
        }
      }
    }
    if ErasersOk(s) {
      forall x | 0 <= x < |s'.stats| ensures EraserOk(s', x) {
        assert x < |s.stats| ==> EraserOk(s, x);
      }
    }
    if PendingsOk(s) {
      forall x | 0 <= x < |s'.stats| ensures PendingOk(s', x) {
        assert x < |s.stats| ==> PendingOk(s, x);
      }
    }
  }

  lemma DrainFlag(lk: Link)
    ensures var lk' := Drain(lk);
      && lk'.alive == lk.alive && (lk'.empty ==> lk.empty)
      && (Vacant(lk) ==> Vacant(lk')) && (lk.pending == [] ==> lk'.pending == [])
      && (lk.drainPc == SwapPending && lk'.drainPc != SwapPending ==> lk'.pending == [])
  {}

  lemma DrainFlagOk(s: State, l: nat, k: nat)
    requires AllOk(s) && ErasersOk(s) && l < |s.links| && k < |s.links| && FlagOk(s, k)
    ensures FlagOk(PutLink(s, l, Drain(s.links[l])), k)
  {
    if k == l && s.links[l].alive && s.links[l].empty {
      TrueHides(s, l);
      assert Drain(s.links[l]).stats == s.links[l].stats;
      DrainRegisters(s, l);
    }
  }

  lemma DrainRegisters(s: State, l: nat)
    requires AllOk(s) && l < |s.links|
    ensures forall y: nat :: Registered(Drain(s.links[l]), y) <==> Registered(s.links[l], y)
  {
    assert LinkOk(s, l);
    DrainConsistent(s.links[l]);
  }

  lemma DrainErasers(s: State, l: nat)
    requires AllOk(s) && ErasersOk(s) && l < |s.links|
    ensures ErasersOk(PutLink(s, l, Drain(s.links[l])))
  {
    hide AllOk;
    var s' := PutLink(s, l, Drain(s.links[l]));
    forall x | 0 <= x < |s'.stats| ensures EraserOk(s', x) {
      assert EraserOk(s, x);
      if s.stats[x].pc == EraseFlag && s.stats[x].link == l {
        EraserDrainsNothing(s, x);
      } else if s.stats[x].pc == PushFlag && s.stats[x].link == l {
        PusherHolds(s, x);
      }
    }
  }

  lemma DrainStepFlags(s: State, l: nat)
    requires AllOk(s) && l < |s.links|
    ensures var s' := PutLink(s, l, Drain(s.links[l]));
      && (ErasersOk(s) && FlagsOk(s) ==> FlagsOk(s')) && (ErasersOk(s) ==> ErasersOk(s'))
      && (PendingsOk(s) ==> PendingsOk(s'))
  {
    hide AllOk, Drain, Vacant, ErasersOk;
    var s' := PutLink(s, l, Drain(s.links[l]));
    DrainFlag(s.links[l]);
    if ErasersOk(s) {
      DrainErasers(s, l);
      if FlagsOk(s) {
        forall k | 0 <= k < |s'.links| ensures FlagOk(s', k) {
          DrainFlagOk(s, l, k);
        }
      }
    }
    if PendingsOk(s) {
      forall x | 0 <= x < |s'.stats| ensures PendingOk(s', x) {
        assert PendingOk(s, x);
      }
    }
  }

  lemma EraserDrainsNothing(s: State, x: nat)
    requires AllOk(s) && x < |s.stats| && s.stats[x].pc == EraseFlag
    ensures s.stats[x].link < |s.links| && Drain(s.links[s.stats[x].link]) == s.links[s.stats[x].link]
  {
    assert StatOk(s, x);
  }

  lemma LockStepFlags(s: State, a: Action)
    requires AllOk(s) && IsLockStep(a)
    ensures FlagStable(s, Next(s, a))
  {
    hide LinkOk, Places, StatOk, PutStat, IncRef, DecRef, Replace;
    LedgersBound(s);
    if (a.SweepLock? || a.DestroyLock?) && a.l < |s.links| && s.links[a.l].holder == Free {
      NobodyDrains(s, a.l);
    }
  }

  lemma BeginFlags(s: State, a: Action)
    requires AllOk(s) && (a.SweepVisit? || a.BeginLink? || a.BeginUnlink?)
    ensures FlagStable(s, Next(s, a))
  {
    hide LinkOk, Places, StatOk, IncRef, DecRef, Replace;
    LedgersBound(s);
  }

  lemma ValueFlags(s: State, a: Action)
    requires a.AddValue? || a.OwnerTake? || a.SweepDeposit?
    ensures FlagStable(s, Next(s, a))
  {
    hide Exact, Passed;
  }

  lemma SweepTakeFlags(s: State, l: nat, to: nat)
    ensures FlagStable(s, Next(s, SweepTake(l, to)))
  {
    hide Exact, Passed;
  }

  lemma ConstructFlags(s: State, a: Action)
    requires AllOk(s) && (a.Construct? || a.MoveConstruct? || a.NewLedger?)
    ensures FlagStable(s, Next(s, a))
  {
    hide LinkOk, Places, StatOk, Replace, DecRef;
    LedgersBound(s);
  }

  lemma DestroyFlags(s: State, a: Action)
    requires AllOk(s) && (a.DestroyStat? || a.ReleaseContainer?)
    ensures FlagStable(s, Next(s, a))
  {
    hide LinkOk, Places, StatOk, Replace, IncRef;
    LedgersBound(s);
  }

  lemma MoveFlags(s: State, x: nat, y: nat)
    requires AllOk(s)
    ensures FlagStable(s, Next(s, MoveAssign(x, y)))
  {
    hide LinkOk, Places, StatOk;
    LedgersBound(s);
  }

  lemma QuietActionFlags(s: State, a: Action)
    requires AllOk(s) && !a.OwnerStep? && !a.DrainStep? && !a.NewContainer?
    ensures FlagStable(s, Next(s, a))
  {
    hide FlagStable, AllOk;
    if IsLockStep(a) {
      LockStepFlags(s, a);
    } else if a.SweepVisit? || a.BeginLink? || a.BeginUnlink? {
      BeginFlags(s, a);
    } else if a.SweepTake? {
      SweepTakeFlags(s, a.l, a.to);
    } else if a.AddValue? || a.OwnerTake? || a.SweepDeposit? {
      ValueFlags(s, a);
    } else if a.MoveAssign? {
      MoveFlags(s, a.x, a.y);
    } else if a.DestroyStat? || a.ReleaseContainer? {
      DestroyFlags(s, a);
    } else {
      ConstructFlags(s, a);
    }
  }

  lemma NobodyDrains(s: State, l: nat)
    requires AllOk(s) && l < |s.links| && s.links[l].holder == Free
    ensures forall x :: 0 <= x < |s.stats| && s.stats[x].link == l ==> s.stats[x].pc != UnlinkDrain
  {
    forall x | 0 <= x < |s.stats| && s.stats[x].link == l ensures s.stats[x].pc != UnlinkDrain {
      assert StatOk(s, x);
    }
  }

  lemma NewContainerFlags(s: State)
    requires AllOk(s)
    ensures var s' := Next(s, NewContainer);
      && (FlagsOk(s) ==> FlagsOk(s')) && (ErasersOk(s) ==> ErasersOk(s')) && (PendingsOk(s) ==> PendingsOk(s'))
  {
    var s' := Next(s, NewContainer);
    LedgersBound(s);
    if FlagsOk(s) {
      forall l | 0 <= l < |s'.links| ensures FlagOk(s', l) {
        assert l < |s.links| ==> FlagOk(s, l);
      }
    }
    if ErasersOk(s) {
      forall x | 0 <= x < |s'.stats| ensures EraserOk(s', x) {
        assert EraserOk(s, x);
      }
    }
    if PendingsOk(s) {
      forall x | 0 <= x < |s'.stats| ensures PendingOk(s', x) {
        assert PendingOk(s, x);
      }
    }
  }

  /** Whatever is not an owner's step of link() or unlink(). */
  lemma OtherFlags(s: State, a: Action)
    requires AllOk(s) && !MovesOwner(s, a)
    ensures ErasersOk(s) && FlagsOk(s) ==> FlagsOk(Next(s, a))
    ensures ErasersOk(s) ==> ErasersOk(Next(s, a))
    ensures PendingsOk(s) ==> PendingsOk(Next(s, a))
  {
    hide FlagStable, FlagsOk, ErasersOk, PendingsOk, AllOk;
    if a.OwnerStep? {
      if StatAt(s, a.x) {
        assert FlagStable(s, Next(s, a)) by { AggregateFlags(s, a.x, a.fails); }
        StableFlags(s, Next(s, a));
      }
    } else if a.DrainStep? {
      if a.l < |s.links| {
        DrainStepKeeps(s, a.l);
        DrainStepFlags(s, a.l);
      }
    } else if a.NewContainer? {
      NewContainerFlags(s);
    } else {
      QuietActionFlags(s, a);
      StableFlags(s, Next(s, a));
    }
  }

  /** A step of link() or unlink() that is not part of the final aggregate(). */
  predicate MovesOwner(s: State, a: Action) {
    a.OwnerStep? && StatAt(s, a.x) && s.stats[a.x].pc !in {Idle, ResetValue, Take, Deposit}
  }

  lemma AggregateFlags(s: State, x: nat, fails: bool)
    requires StatAt(s, x) && s.stats[x].pc in {Idle, ResetValue, Take, Deposit}
    ensures FlagStable(s, Next(s, OwnerStep(x, fails)))
  {
    hide Defer, Register, Unregister;
  }

  lemma OwnerMove(s: State, a: Action)
    requires AllOk(s) && MovesOwner(s, a)
    ensures Next(s, a) == PutEnds(s, a.x, OwnerEnds(EndsOf(s, a.x), a.x, a.fails))
  {
    hide Defer, Register, Unregister, AllOk;
    EndsKeep(s, a.x, a.fails);
  }

  lemma StepErasers(s: State, a: Action)
    requires AllOk(s) && ErasersOk(s)
    ensures ErasersOk(Next(s, a))
  {
    hide AllOk, ErasersOk, Next, PutEnds;
    if MovesOwner(s, a) {
      OwnerMove(s, a);
      OwnerStepErasers(s, a.x, a.fails);
    } else {
      OtherFlags(s, a);
    }
  }

  lemma StepFlags(s: State, a: Action)
    requires AllOk(s) && ErasersOk(s) && FlagsOk(s) && !Overwrites(s, a)
    ensures FlagsOk(Next(s, a))
  {
    hide AllOk, ErasersOk, FlagsOk, Next, PutEnds, Overwrites;
    if MovesOwner(s, a) {
      OwnerMove(s, a);
      OwnerStepFlags(s, a.x, a.fails);
    } else {
      OtherFlags(s, a);
    }
  }

  // ----- whole runs -----

  /** The flag is right in every state of the run. */
  ghost predicate FlagAlwaysOk(acts: seq<Action>) {
    FlagsOk(Run(acts)) && (acts != [] ==> FlagAlwaysOk(acts[..|acts| - 1]))
  }

  predicate NeverOverwrites(acts: seq<Action>) {
    acts != [] ==>
      NeverOverwrites(acts[..|acts| - 1]) && !Overwrites(Run(acts[..|acts| - 1]), acts[|acts| - 1])
  }

  lemma {:induction false} RunErasers(acts: seq<Action>)
    ensures AllOk(Run(acts)) && ErasersOk(Run(acts))
  {
    hide AllOk, Next;
    RunKeeps(acts);
    if acts != [] {
      RunErasers(acts[..|acts| - 1]);
      StepErasers(Run(acts[..|acts| - 1]), acts[|acts| - 1]);
    }
  }

  /**
    The exact condition, for every run and with no hypothesis on how calls overlap: the flag
    is right throughout if and only if no unlink() sets it over a pending stat whose link()
    is past its own store.
   */
  lemma {:induction false} FlagSoundIff(acts: seq<Action>)
    ensures FlagAlwaysOk(acts) <==> NeverOverwrites(acts)
  {
    hide AllOk, ErasersOk, Overwrites, Next;
    if acts != [] {
      var before, a := acts[..|acts| - 1], acts[|acts| - 1];
      FlagSoundIff(before);
      RunErasers(before);
      if FlagAlwaysOk(before) {
        if Overwrites(Run(before), a) {
          OverwriteBreaksFlag(Run(before), a);
        } else {
          StepFlags(Run(before), a);
        }
      }
    }
  }

  /**
    In such a run, and whatever link()s are in progress, a container with a linked stat at
    rest has its flag false: no sweep returns early from it.
   */
  lemma LinkedStatClearsFlag(acts: seq<Action>, x: nat)
    requires NeverOverwrites(acts) && x < |Run(acts).stats|
    requires var st := Run(acts).stats[x];
      st.pc == Idle && st.linked && st.link < |Run(acts).links| && Run(acts).links[st.link].alive
    ensures !Run(acts).links[Run(acts).stats[x].link].empty
  {
    hide Run, NeverOverwrites;
    FlagSoundIff(acts);
    RunErasers(acts);
    var s := Run(acts);
    var l := s.stats[x].link;
    assert FlagOk(s, l) && LinkOk(s, l) && StatOk(s, x);
    assert Belongs(s.stats[x]) && Registered(s.links[l], x);
  }

  predicate NoneClearing(s: State, l: nat) {
    forall x :: 0 <= x < |s.stats| && s.stats[x].link == l ==> !AboutToClear(s.stats[x])
  }

  /**
    And a flag that reads true hides no stat but those whose own link() is about to clear
    it; with no such link() the container is vacant.
   */
  lemma SkipMissesNothingUnlessOverwritten(acts: seq<Action>, l: nat)
    requires NeverOverwrites(acts) && l < |Run(acts).links|
    requires Run(acts).links[l].alive && Run(acts).links[l].empty
    ensures forall x: nat :: Registered(Run(acts).links[l], x) ==>
              x < |Run(acts).stats| && AboutToClear(Run(acts).stats[x])
    ensures NoneClearing(Run(acts), l) ==> Vacant(Run(acts).links[l])
    ensures forall x :: 0 <= x < |Run(acts).stats| && Run(acts).stats[x].link == l && Run(acts).stats[x].linked ==>
              Run(acts).stats[x].pc != Idle
  {
    hide Run, NeverOverwrites;
    FlagSoundIff(acts);
    RunErasers(acts);
    var s := Run(acts);
    var lk := s.links[l];
    assert FlagOk(s, l) && LinkOk(s, l);
    forall x | 0 <= x < |s.stats| && s.stats[x].link == l && s.stats[x].linked ensures s.stats[x].pc != Idle {
      assert Registered(lk, x) <==> Belongs(s.stats[x]);
      assert StatOk(s, x);
    }
    if NoneClearing(s, l) {
      assert forall x: nat :: !Registered(lk, x);
      NoneRegistered(lk);
    }
  }

  lemma NoneRegistered(lk: Link)
    requires forall x: nat :: !Registered(lk, x)
    ensures Vacant(lk)
  {
    if lk.pending != [] {
      assert Registered(lk, lk.pending[0]);
    }
    if lk.drain != [] {
      assert Registered(lk, lk.drain[0]);
    }
    assert forall x :: x in lk.stats ==> Registered(lk, x);
  }

  // ----- serialized calls -----

  /** The owner serializes link() and unlink() on each container. */
  ghost predicate Serialized(s: State) {
    forall x, y :: 0 <= x < |s.stats| && 0 <= y < |s.stats| && x != y && s.stats[x].link == s.stats[y].link
      ==> s.stats[x].pc == Idle || s.stats[y].pc == Idle
  }

  ghost predicate SerializedRun(acts: seq<Action>) {
    Serialized(Run(acts)) && (acts != [] ==> SerializedRun(acts[..|acts| - 1]))
  }

  /** Once an unlink() has taken the pending list, no one else adds to it. */
  predicate PendingOk(s: State, x: nat)
    requires x < |s.stats|
  {
    var st := s.stats[x];
    st.link < |s.links| ==>
      var lk := s.links[st.link];
      st.pc in {Erase, EraseFlag} || (st.pc == UnlinkDrain && lk.drainPc != SwapPending) ==> lk.pending == []
  }

  predicate PendingsOk(s: State) {
    forall x :: 0 <= x < |s.stats| ==> PendingOk(s, x)
  }

  predicate PendingEnds(e: Ends) {
    e.st.pc in {Erase, EraseFlag} || (e.st.pc == UnlinkDrain && e.lk.drainPc != SwapPending) ==> e.lk.pending == []
  }

  lemma OwnerPending(e: Ends, x: nat, fails: bool)
    requires Consistent(e, x) && e.st.pc !in {Idle, ResetValue, Take, Deposit} && PendingEnds(e)
    ensures PendingEnds(OwnerEnds(e, x, fails)) && OwnerEnds(e, x, fails).st.link == e.st.link
  {
    hide Separate, Registered, Belongs, CheckFires;
  }

  lemma StepPendings(s: State, a: Action)
    requires AllOk(s) && PendingsOk(s) && Serialized(s)
    ensures PendingsOk(Next(s, a))
  {
    hide AllOk, Next, OwnerEnds;
    if MovesOwner(s, a) {
      OwnerMove(s, a);
      OwnConsistent(s, a.x);
      assert PendingOk(s, a.x);
      OwnerPending(EndsOf(s, a.x), a.x, a.fails);
      forall y | 0 <= y < |Next(s, a).stats| ensures PendingOk(Next(s, a), y) {
        assert PendingOk(s, y);
      }
    } else {
      OtherFlags(s, a);
    }
  }

  /** Serialized calls never overwrite the flag, whatever sweeps do. */
  lemma {:induction false} SerializedNeverOverwrites(acts: seq<Action>)
    requires SerializedRun(acts)
    ensures NeverOverwrites(acts) && PendingsOk(Run(acts))
  {
    hide AllOk, Next, Serialized;
    if acts != [] {
      var before, a := acts[..|acts| - 1], acts[|acts| - 1];
      SerializedNeverOverwrites(before);
      RunKeeps(before);
      StepPendings(Run(before), a);
      if Overwrites(Run(before), a) {
        assert PendingOk(Run(before), a.x);
      }
    }
  }

  /**
    When the owner serializes link() and unlink(), a flag that reads true with no link()
    in progress means that no stat is registered, pending or being drained: a sweep that
    returns early skips nothing, whatever other sweeps do.
   */
  lemma SkipMissesNothing(acts: seq<Action>, l: nat)
    requires SerializedRun(acts) && l < |Run(acts).links|
    requires Run(acts).links[l].alive && Run(acts).links[l].empty && NoneLinking(Run(acts), l)
    ensures Vacant(Run(acts).links[l])
    ensures forall x :: 0 <= x < |Run(acts).stats| && Run(acts).stats[x].link == l && Run(acts).stats[x].linked ==>
              Run(acts).stats[x].pc != Idle
  {
    hide Run, SerializedRun, NeverOverwrites;
    SerializedNeverOverwrites(acts);
    SkipMissesNothingUnlessOverwritten(acts, l);
  }

  // ----- a run that overwrites -----

  const BOOK := Ledger(Series, NOTHING, NOTHING, NOTHING)
  const SHARED := FRESH.(refs := 3)
  const LINKED := NewStat(0, 0).(linked := true)

  function Two(lk: Link, a: Stat, b: Stat): State {
    State([lk], [a, b], [BOOK], false)
  }

  lemma Do(acts: seq<Action>, a: Action) returns (next: seq<Action>)
    ensures Run(next) == Next(Run(acts), a)
  {
    next := acts + [a];
    assert next[..|next| - 1] == acts;
  }

  lemma Constructs()
    ensures Next(Next(INIT, NewLedger(Series)), NewContainer) == State([FRESH], [], [BOOK], false)
    ensures Next(State([FRESH], [], [BOOK], false), Construct(0, 0))
         == State([FRESH.(refs := 2)], [NewStat(0, 0)], [BOOK], false)
    ensures Next(State([FRESH.(refs := 2)], [NewStat(0, 0)], [BOOK], false), Construct(0, 0))
         == Two(SHARED, NewStat(0, 0), NewStat(0, 0))
  {
    assert [FRESH.(refs := 2)][0 := SHARED] == [SHARED];
  }

  lemma Setup() returns (acts: seq<Action>)
    ensures Run(acts) == Two(SHARED, NewStat(0, 0), NewStat(0, 0))
  {
    assert Run([]) == INIT;
    hide Run, Next;
    acts := Do([], NewLedger(Series));
    acts := Do(acts, NewContainer);
    acts := Do(acts, Construct(0, 0));
    acts := Do(acts, Construct(0, 0));
    Constructs();
  }

  /** The first owner's step, then the second owner's and the lock holder's, on two such stats. */
  lemma First(acts: seq<Action>, lk: Link, a: Stat, b: Stat, fails: bool) returns (next: seq<Action>)
    requires Run(acts) == Two(lk, a, b) && a.live && a.link == 0 && a.ledger == 0
    requires a.pc !in {Idle, ResetValue, Take, Deposit} && !CheckFires(Ends(a, lk), 0)
    ensures var e := OwnerEnds(Ends(a, lk), 0, fails); Run(next) == Two(e.lk, e.st, b)
  {
    hide Run, CheckFires, Defer, Register, Unregister;
    next := Do(acts, OwnerStep(0, fails));
  }

  lemma Second(acts: seq<Action>, lk: Link, a: Stat, b: Stat) returns (next: seq<Action>)
    requires Run(acts) == Two(lk, a, b) && b.live && b.link == 0 && b.ledger == 0
    requires b.pc !in {Idle, ResetValue, Take, Deposit} && !CheckFires(Ends(b, lk), 1)
    ensures var e := OwnerEnds(Ends(b, lk), 1, false); Run(next) == Two(e.lk, a, e.st)
  {
    hide Run, CheckFires, Defer, Register, Unregister;
    next := Do(acts, OwnerStep(1, false));
  }

  lemma Drains(acts: seq<Action>, lk: Link, a: Stat, b: Stat) returns (next: seq<Action>)
    requires Run(acts) == Two(lk, a, b) && !DrainCheckFires(lk)
    ensures Run(next) == Two(Drain(lk), a, b)
  {
    hide Run, DrainCheckFires, Drain;
    next := Do(acts, DrainStep(0));
  }

  lemma Links(acts: seq<Action>, lk: Link, a: Stat, b: Stat, x: nat) returns (next: seq<Action>)
    requires Run(acts) == Two(lk, a, b) && x < 2 && lk.holder != Destroyer
    requires [a, b][x] == NewStat(0, 0)
    ensures var st := NewStat(0, 0).(pc := TryLock); Run(next) == if x == 0 then Two(lk, st, b) else Two(lk, a, st)
  {
    hide Run;
    next := Do(acts, BeginLink(x));
  }

  /** unlink() up to the registry lock, for a stat that was given nothing. */
  lemma FinalAggregate(acts: seq<Action>, lk: Link, b: Stat) returns (next: seq<Action>)
    requires Run(acts) == Two(lk, LINKED, b)
    ensures Run(next) == Two(lk, LINKED.(pc := WaitLock), b)
  {
    hide Run, Next;
    next := Do(acts, BeginUnlink(0));
    BeginsToUnlink(lk, b);
    next := Do(next, OwnerStep(0, false));
    next := Do(next, OwnerTake(0, 0));
    TakesNothing(lk, b);
    next := Do(next, OwnerStep(0, false));
    DepositsNothing(lk, b);
  }

  lemma BeginsToUnlink(lk: Link, b: Stat)
    ensures Next(Two(lk, LINKED, b), BeginUnlink(0)) == Two(lk, LINKED.(pc := ResetValue), b)
    ensures Next(Two(lk, LINKED.(pc := ResetValue), b), OwnerStep(0, false)) == Two(lk, LINKED.(pc := Take), b)
  {
    hide Defer, Register, Unregister;
    var s := Two(lk, LINKED.(pc := ResetValue), b);
    assert Next(Two(lk, LINKED, b), BeginUnlink(0)).stats == s.stats;
    assert NextOwner(s, 0, false).stats == [LINKED.(pc := Take), b];
  }

  lemma TakesNothing(lk: Link, b: Stat)
    ensures Next(Two(lk, LINKED.(pc := Take), b), OwnerTake(0, 0)) == Two(lk, LINKED.(pc := Deposit), b)
  {
    hide Passed, Exact;
    var s := Two(lk, LINKED.(pc := Take), b);
    assert s.stats[0].history[0..0] == [];
    NoLoss();
    var s' := Next(s, OwnerTake(0, 0));
    assert s'.stats == [LINKED.(pc := Deposit), b];
    assert s'.ledgers == [BOOK];
  }

  lemma DepositsNothing(lk: Link, b: Stat)
    ensures Next(Two(lk, LINKED.(pc := Deposit), b), OwnerStep(0, false)) == Two(lk, LINKED.(pc := WaitLock), b)
  {
    hide Defer, Register, Unregister, Pay;
    var s := Two(lk, LINKED.(pc := Deposit), b);
    var paid := PutStat(s, 0, LINKED.(pc := WaitLock));
    PaysNothing(paid);
    assert paid.stats == [LINKED.(pc := WaitLock), b];
    assert LINKED.(pc := Deposit).(mine := NOTHING, pc := WaitLock) == LINKED.(pc := WaitLock);
  }

  lemma PaysNothing(s: State)
    requires s.ledgers == [BOOK]
    ensures Pay(s, 0, NOTHING) == s
  {
    hide Plus;
    var books := s.ledgers;
    PaysNothingInto(books[0]);
    assert books[0 := books[0]] == books;
    assert Pay(s, 0, NOTHING).ledgers == books;
  }

  lemma PaysNothingInto(lg: Ledger)
    ensures lg.(value := Plus(lg.value, NOTHING)) == lg
  {
    assert Plus(lg.value, NOTHING) == lg.value;
  }

  lemma NoLoss()
    ensures Passed(Series, []) == NOTHING && Exact(Series, []) == NOTHING
  {}

  /** The first stat links by the deferred path. */
  lemma FirstDefers() returns (acts: seq<Action>)
    ensures Run(acts) == Two(SHARED.(pending := [0], empty := false), LINKED, NewStat(0, 0))
  {
    hide Run;
    var b := NewStat(0, 0);
    acts := Setup();
    acts := Links(acts, SHARED, b, b, 0);
    acts := First(acts, SHARED, b.(pc := TryLock), b, true);
    acts := First(acts, SHARED, b.(pc := PushPending), b, true);
    acts := First(acts, SHARED.(pending := [0], pendingLock := 0), b.(pc := PushFlag), b, true);
    var lk := SHARED.(pending := [0], empty := false);
    acts := First(acts, lk, b.(pc := SetLinkedFree), b, true);
  }

  /** Then its unlink() is about to set the flag. */
  lemma FirstErases() returns (acts: seq<Action>)
    ensures Run(acts) == Two(SHARED.(holder := Owner(0), empty := false), LINKED.(pc := EraseFlag), NewStat(0, 0))
  {
    hide Run;
    var b := NewStat(0, 0);
    var lk := SHARED.(pending := [0], empty := false);
    acts := FirstDefers();
    acts := FinalAggregate(acts, lk, b);
    acts := First(acts, lk, LINKED.(pc := WaitLock), b, false);
    var u := LINKED.(pc := UnlinkDrain);
    acts := Drains(acts, lk.(holder := Owner(0), drainPc := SwapPending), u, b);
    lk := SHARED.(holder := Owner(0), empty := false);
    acts := Drains(acts, lk.(drain := [0], drainPc := InsertNext), u, b);
    assert lk.stats + {0} == {0} && [0][1..] == [];
    acts := Drains(acts, lk.(stats := {0}, drainPc := FlagNext), u, b);
    acts := Drains(acts, lk.(stats := {0}, drainPc := InsertNext), u, b);
    acts := First(acts, lk.(stats := {0}), u, b, false);
    acts := First(acts, lk.(stats := {0}), u.(pc := Erase), b, false);
  }

  /**
    An unlink() that runs while another thread's link() defers can overwrite the false
    that link() stored: a run ends with every call returned, the flag true, and a linked
    stat waiting on the pending list, so that aggregate() skips it.
   */
  lemma UnserializedSkipMissesAStat() returns (acts: seq<Action>)
    ensures var s := Run(acts);
      && |s.links| == 1 && |s.stats| == 2 && s.links[0].alive && s.links[0].empty && s.links[0].holder == Free
      && s.stats[0].pc == Idle && s.stats[1].pc == Idle && s.stats[1].linked && s.links[0].pending == [1]
  {
    hide Run;
    var b, u := NewStat(0, 0), LINKED.(pc := EraseFlag);
    var lk := SHARED.(holder := Owner(0), empty := false);
    acts := FirstErases();
    acts := Links(acts, lk, u, b, 1);
    acts := Second(acts, lk, u, b.(pc := TryLock));
    acts := Second(acts, lk, u, b.(pc := PushPending));
    acts := Second(acts, lk.(pending := [1], pendingLock := 1), u, b.(pc := PushFlag));
    lk := lk.(pending := [1]);
    acts := First(acts, lk, u, b.(pc := SetLinkedFree), false);
    lk := lk.(empty := true);
    acts := First(acts, lk, LINKED.(pc := SetUnlinked), b.(pc := SetLinkedFree), false);
    acts := Second(acts, lk.(holder := Free), NewStat(0, 0), b.(pc := SetLinkedFree));
  }
}
