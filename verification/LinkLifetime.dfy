/**
  Reference counts of links: in every run of `Registry` a link is freed exactly when its
  last holder, a stat or the container, drops it.
 */
module LinkLifetime {
  import opened Registry

  function One(b: bool): nat { if b then 1 else 0 }

  /** How many existing stats hold a pointer to a link. */
  function References(stats: seq<Stat>, l: nat): nat {
    if stats == [] then 0
    else References(stats[..|stats| - 1], l) + One(stats[|stats| - 1].live && stats[|stats| - 1].link == l)
  }

  predicate RefOk(s: State, l: nat)
    requires l < |s.links|
  {
    var lk := s.links[l];
    && lk.refs == References(s.stats, l) + One(lk.owned)
    && (lk.freed <==> lk.refs == 0)
    && (lk.alive ==> lk.owned)
  }

  predicate RefsOk(s: State) {
    && (forall l :: 0 <= l < |s.links| ==> RefOk(s, l))
    && (forall x :: 0 <= x < |s.stats| ==> s.stats[x].link < |s.links|)
  }

  lemma {:induction false} ReferencesUpdate(stats: seq<Stat>, x: nat, st: Stat, l: nat)
    requires x < |stats|
    ensures References(stats[x := st], l) + One(stats[x].live && stats[x].link == l)
         == References(stats, l) + One(st.live && st.link == l)
  {
    var n := |stats| - 1;
    if x == n {
      assert stats[x := st][..n] == stats[..n];
    } else {
      assert stats[x := st][..n] == stats[..n][x := st];
      ReferencesUpdate(stats[..n], x, st, l);
    }
  }

  lemma {:induction false} ReferencesSame(a: seq<Stat>, b: seq<Stat>, l: nat)
    requires |a| == |b| && forall x :: 0 <= x < |a| ==> a[x].live == b[x].live && a[x].link == b[x].link
    ensures References(a, l) == References(b, l)
  {
    if a != [] {
      ReferencesSame(a[..|a| - 1], b[..|b| - 1], l);
    }
  }

  lemma ReferencesAppend(stats: seq<Stat>, st: Stat, l: nat)
    ensures References(stats + [st], l) == References(stats, l) + One(st.live && st.link == l)
  {
    assert (stats + [st])[..|stats|] == stats;
  }

  predicate SameHolders(s: State, s': State) {
    && |s'.links| == |s.links| && |s'.stats| == |s.stats|
    && (forall l :: 0 <= l < |s.links| ==>
          && s'.links[l].refs == s.links[l].refs && s'.links[l].owned == s.links[l].owned
          && s'.links[l].freed == s.links[l].freed && (s'.links[l].alive ==> s.links[l].alive))
    && (forall x :: 0 <= x < |s.stats| ==> s'.stats[x].live == s.stats[x].live && s'.stats[x].link == s.stats[x].link)
  }

  predicate IsLifetimeStep(a: Action) {
    a.NewContainer? || a.Construct? || a.MoveConstruct? || a.MoveAssign? || a.DestroyStat? || a.ReleaseContainer?
  }

  predicate SameCounts(a: Ends, b: Ends) {
    && a.lk.refs == b.lk.refs && a.lk.owned == b.lk.owned && a.lk.freed == b.lk.freed && a.lk.alive == b.lk.alive
    && a.st.live == b.st.live && a.st.link == b.st.link
  }

  lemma EndsTouchNoReference(e: Ends, x: nat, fails: bool)
    ensures SameCounts(e, Defer(e, x, fails)) && SameCounts(e, Register(e, x)) && SameCounts(e, Unregister(e, x))
  {
    hide SameCounts, Defer, Register, Unregister;
    DeferTouchesNoReference(e, x, fails);
    RegisterTouchesNoReference(e, x);
    UnregisterTouchesNoReference(e, x);
  }

  lemma DeferTouchesNoReference(e: Ends, x: nat, fails: bool)
    ensures SameCounts(e, Defer(e, x, fails))
  {}

  lemma RegisterTouchesNoReference(e: Ends, x: nat)
    ensures SameCounts(e, Register(e, x))
  {}

  lemma UnregisterTouchesNoReference(e: Ends, x: nat)
    ensures SameCounts(e, Unregister(e, x))
  {}

  lemma OwnerTouchesNoReference(s: State, x: nat, fails: bool)
    requires StatAt(s, x)
    ensures SameHolders(s, NextOwner(s, x, fails))
  {
    hide Defer, Register, Unregister, CheckFires;
    EndsTouchNoReference(EndsOf(s, x), x, fails);
  }

  lemma ValuesTouchNoReference(s: State, a: Action)
    requires a.AddValue? || a.OwnerTake? || a.SweepTake? || a.SweepDeposit?
    ensures SameHolders(s, Next(s, a))
  {
    hide Exact, Passed;
  }

  lemma OtherStepsTouchNoReference(s: State, a: Action)
    requires !IsLifetimeStep(a)
    ensures SameHolders(s, Next(s, a))
  {
    hide NextOwner, TakeWindow, Give, Pay, SameHolders;
    if a.OwnerStep? {
      if StatAt(s, a.x) {
        OwnerTouchesNoReference(s, a.x, a.fails);
      }
      assert SameHolders(s, s) by { NothingTouched(s); }
    } else if a.AddValue? || a.OwnerTake? || a.SweepTake? || a.SweepDeposit? {
      ValuesTouchNoReference(s, a);
    } else {
      if a.DrainStep? || a.DestroyLock? || a.DestroyBody? || a.SweepLock? || a.SweepUnlock? {
        LocksTouchNoReference(s, a);
      } else {
        BeginsTouchNoReference(s, a);
      }
    }
  }

  lemma NothingTouched(s: State)
    ensures SameHolders(s, s)
  {}

  lemma LocksTouchNoReference(s: State, a: Action)
    requires a.DrainStep? || a.DestroyLock? || a.DestroyBody? || a.SweepLock? || a.SweepUnlock?
    ensures SameHolders(s, Next(s, a))
  {
    hide NextOwner, TakeWindow, Give, Pay, Replace, IncRef, DecRef, Drain;
    if a.DrainStep? && a.l < |s.links| {
      hide Next;
      DrainTouchesNoReference(s, a.l);
    }
  }

  lemma DrainTouchesNoReference(s: State, l: nat)
    requires l < |s.links|
    ensures SameHolders(s, Next(s, DrainStep(l)))
  {
    hide Drain, DrainCheckFires;
    DrainSameCounts(s.links[l]);
  }

  lemma DrainSameCounts(lk: Link)
    ensures Drain(lk).refs == lk.refs && Drain(lk).owned == lk.owned && Drain(lk).freed == lk.freed
    ensures Drain(lk).alive == lk.alive
  {}

  lemma BeginsTouchNoReference(s: State, a: Action)
    requires a.BeginLink? || a.BeginUnlink? || a.SweepVisit? || a.NewLedger?
    ensures SameHolders(s, Next(s, a))
  {
    hide NextOwner, TakeWindow, Give, Pay, Replace, IncRef, DecRef, Drain;
  }

  lemma SameHoldersKeep(s: State, s': State)
    requires RefsOk(s) && SameHolders(s, s')
    ensures RefsOk(s')
  {
    forall l | 0 <= l < |s'.links| ensures RefOk(s', l) {
      assert RefOk(s, l);
      ReferencesSame(s.stats, s'.stats, l);
    }
  }

  lemma Referenced(s: State, x: nat)
    requires RefsOk(s) && x < |s.stats| && s.stats[x].live
    ensures References(s.stats, s.stats[x].link) >= 1 && s.links[s.stats[x].link].refs >= 1
  {
    ReferencesUpdate(s.stats, x, s.stats[x].(live := false), s.stats[x].link);
    assert RefOk(s, s.stats[x].link);
  }

  /** A new stat takes a reference to a link that is still held. */
  lemma AppendKeeps(s: State, l: nat, g: nat)
    requires RefsOk(s) && l < |s.links| && s.links[l].refs >= 1
    ensures RefsOk(IncRef(s.(stats := s.stats + [NewStat(l, g)]), l))
  {
    var s' := IncRef(s.(stats := s.stats + [NewStat(l, g)]), l);
    forall k | 0 <= k < |s'.links| ensures RefOk(s', k) {
      assert RefOk(s, k);
      ReferencesAppend(s.stats, NewStat(l, g), k);
    }
  }

  lemma DestroyKeeps(s: State, x: nat)
    requires RefsOk(s) && x < |s.stats| && s.stats[x].live
    ensures RefsOk(DecRef(PutStat(s, x, s.stats[x].(live := false)), s.stats[x].link))
  {
    var s' := DecRef(PutStat(s, x, s.stats[x].(live := false)), s.stats[x].link);
    Referenced(s, x);
    forall k | 0 <= k < |s'.links| ensures RefOk(s', k) {
      assert RefOk(s, k);
      ReferencesUpdate(s.stats, x, s.stats[x].(live := false), k);
    }
  }

  /** replaceFromOther: the source keeps its link held, also when both sides share one. */
  lemma ReplaceKeeps(s: State, x: nat, y: nat)
    requires RefsOk(s) && x != y && StatAt(s, x) && StatAt(s, y)
    ensures RefsOk(Replace(s, x, y))
  {
    var s' := Replace(s, x, y);
    var a, b := s.stats[x], s.stats[y];
    var a' := a.(link := b.link, ledger := b.ledger, history := [], drained := 0);
    Referenced(s, x);
    Referenced(s, y);
    var gone := s.stats[x := a.(live := false)];
    forall k | 0 <= k < |s'.links| ensures RefOk(s', k) {
      assert RefOk(s, k);
      ReferencesUpdate(s.stats, x, a', k);
      ReferencesUpdate(s.stats[x := a'], y, b.(ledger := a.ledger, history := [], drained := 0), k);
      ReferencesUpdate(s.stats, x, a.(live := false), k);
      ReferencesUpdate(gone, y, b.(live := false), k);
    }
  }

  lemma StepKeepsRefs(s: State, a: Action)
    requires RefsOk(s)
    ensures RefsOk(Next(s, a))
  {
    if !IsLifetimeStep(a) {
      hide Next;
      OtherStepsTouchNoReference(s, a);
      SameHoldersKeep(s, Next(s, a));
    } else if Next(s, a) != s {
      match a
      case NewContainer =>
        forall l | 0 <= l < |s.links| + 1 ensures RefOk(Next(s, a), l) {
          if l < |s.links| {
            assert RefOk(s, l);
          } else {
            NoReferences(s.stats, l);
          }
        }
      case Construct(l, g) =>
        assert RefOk(s, l);
        AppendKeeps(s, l, g);
      case MoveConstruct(x) =>
        Referenced(s, x);
        AppendKeeps(s, s.stats[x].link, s.stats[x].ledger);
      case MoveAssign(x, y) => ReplaceKeeps(s, x, y);
      case DestroyStat(x) => DestroyKeeps(s, x);
      case ReleaseContainer(l) =>
        forall k | 0 <= k < |s.links| ensures RefOk(Next(s, a), k) {
          assert RefOk(s, k);
        }
      case _ =>
    }
  }

  lemma {:induction false} NoReferences(stats: seq<Stat>, l: nat)
    requires forall x :: 0 <= x < |stats| ==> stats[x].link != l
    ensures References(stats, l) == 0
  {
    if stats != [] {
      NoReferences(stats[..|stats| - 1], l);
    }
  }

  lemma {:induction false} RunKeepsRefs(acts: seq<Action>)
    ensures RefsOk(Run(acts))
  {
    if acts != [] {
      RunKeepsRefs(acts[..|acts| - 1]);
      StepKeepsRefs(Run(acts[..|acts| - 1]), acts[|acts| - 1]);
    }
  }

  /**
    Through any run of constructions, moves, assignments and destructions, refCount_ is
    the number of pointers to the link; the link is freed exactly when that is zero, so
    no existing stat, and no live container, ever refers to a freed link.
   */
  lemma FreedWithTheLastReference(acts: seq<Action>)
    ensures var s := Run(acts);
      && (forall l :: 0 <= l < |s.links| ==>
            && s.links[l].refs == References(s.stats, l) + One(s.links[l].owned)
            && (s.links[l].freed <==> s.links[l].refs == 0)
            && (s.links[l].alive ==> !s.links[l].freed))
      && (forall x :: 0 <= x < |s.stats| && s.stats[x].live ==>
            s.stats[x].link < |s.links| && !s.links[s.stats[x].link].freed)
  {
    hide Run;
    RunKeepsRefs(acts);
    var s := Run(acts);
    forall l | 0 <= l < |s.links|
      ensures s.links[l].refs == References(s.stats, l) + One(s.links[l].owned)
           && (s.links[l].freed <==> s.links[l].refs == 0) && (s.links[l].alive ==> !s.links[l].freed)
    {
      assert RefOk(s, l);
    }
    forall x | 0 <= x < |s.stats| && s.stats[x].live ensures !s.links[s.stats[x].link].freed {
      Referenced(s, x);
      assert RefOk(s, s.stats[x].link);
    }
  }
}
