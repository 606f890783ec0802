/**
  Where every update goes: in any run of `Registry`, what the stats of a global stat were
  given is in the global stat, was dropped by aggregate() in a way that is accounted for,
  or is still owed; and a stat whose unlink() has returned owes nothing.
 */
module Conservation {
  import opened Words
  import opened History
  import opened Registry
  import opened RegistryProof

  // ----- amounts -----

  /** What a stat was given and has not yet passed on. */
  function Owed(kind: Kind, st: Stat): Amount
    requires st.drained <= |st.history|
  {
    Plus(Exact(kind, st.history[st.drained..]), Plus(st.mine, st.swept))
  }

  function Share(kind: Kind, st: Stat, g: nat): Amount
    requires st.drained <= |st.history|
  {
    if st.ledger == g then Owed(kind, st) else NOTHING
  }

  predicate Drainable(stats: seq<Stat>) {
    forall x :: 0 <= x < |stats| ==> stats[x].drained <= |stats[x].history|
  }

  function OwedTo(kind: Kind, stats: seq<Stat>, g: nat): Amount
    requires Drainable(stats)
  {
    if stats == [] then NOTHING
    else Plus(OwedTo(kind, stats[..|stats| - 1], g), Share(kind, stats[|stats| - 1], g))
  }

  lemma {:induction false} OwedUpdate(kind: Kind, stats: seq<Stat>, x: nat, st: Stat, g: nat)
    requires Drainable(stats) && x < |stats| && st.drained <= |st.history|
    ensures Plus(OwedTo(kind, stats[x := st], g), Share(kind, stats[x], g))
         == Plus(OwedTo(kind, stats, g), Share(kind, st, g))
  {
    hide Owed;
    var n := |stats| - 1;
    if x == n {
      assert stats[x := st][..n] == stats[..n];
    } else {
      assert stats[x := st][..n] == stats[..n][x := st];
      OwedUpdate(kind, stats[..n], x, st, g);
    }
  }

  predicate SameDebt(a: Stat, b: Stat) {
    a.ledger == b.ledger && a.history == b.history && a.drained == b.drained && a.mine == b.mine && a.swept == b.swept
  }

  lemma {:induction false} OwedSame(kind: Kind, a: seq<Stat>, b: seq<Stat>, g: nat)
    requires Drainable(a) && |a| == |b| && forall x :: 0 <= x < |a| ==> SameDebt(a[x], b[x])
    ensures Drainable(b) && OwedTo(kind, a, g) == OwedTo(kind, b, g)
  {
    hide Exact;
    if a != [] {
      OwedSame(kind, a[..|a| - 1], b[..|b| - 1], g);
      assert SameDebt(a[|a| - 1], b[|b| - 1]);
    }
  }

  lemma ExactConcat(kind: Kind, a: seq<Update>, b: seq<Update>)
    ensures Exact(kind, a + b) == Plus(Exact(kind, a), Exact(kind, b))
  {
    TotalConcat(Count, a, b);
    TotalConcat(Value, a, b);
  }

  // ----- the invariant -----

  predicate Balanced(s: State, g: nat)
    requires g < |s.ledgers| && Drainable(s.stats)
  {
    var lg := s.ledgers[g];
    lg.added == Plus(Plus(lg.value, lg.lost), OwedTo(lg.kind, s.stats, g))
  }

  /** Nothing waits to be drained once the final aggregate() has taken its window, until the stat is linked again. */
  predicate PastFinalTake(st: Stat) {
    Linking(st.pc) || st.pc in {Deposit, WaitLock, UnlinkDrain, Erase, EraseFlag, SetUnlinked}
    || (st.pc == Idle && !st.linked)
  }

  predicate Quiet(s: State, x: nat)
    requires x < |s.stats|
  {
    var st := s.stats[x];
    && st.drained <= |st.history|
    && (st.mine != NOTHING ==> st.pc == Deposit)
    && (PastFinalTake(st) ==> st.drained == |st.history|)
    && (st.pc == Take ==> st.began == |st.history|)
    && (st.swept != NOTHING ==> st.link < |s.links| && s.links[st.link].visit == Visit(x, true))
  }

  predicate Books(s: State) {
    && (forall x :: 0 <= x < |s.stats| ==> Quiet(s, x))
    && Drainable(s.stats)
    && (forall g :: 0 <= g < |s.ledgers| ==> Balanced(s, g))
  }

  // ----- steps that move no value -----

  /** Every debt stays as it is. */
  predicate DebtsSame(s: State, s': State) {
    && s'.ledgers == s.ledgers && |s'.stats| == |s.stats|
    && (forall x :: 0 <= x < |s.stats| ==> SameDebt(s.stats[x], s'.stats[x]))
  }

  lemma DebtsSameKeep(s: State, s': State)
    requires Books(s) && DebtsSame(s, s') && forall x :: 0 <= x < |s'.stats| ==> Quiet(s', x)
    ensures Books(s')
  {
    hide Quiet, Owed;
    forall g | 0 <= g < |s'.ledgers| ensures Drainable(s'.stats) && Balanced(s', g) {
      assert Balanced(s, g);
      OwedSame(s.ledgers[g].kind, s.stats, s'.stats, g);
    }
    forall x | 0 <= x < |s'.stats| ensures SameDebt(s.stats[x], s'.stats[x]) {}
    OwedSame(Series, s.stats, s'.stats, 0);
  }

  /** What an owner's step that touches no value does to its ends. */
  predicate QuietEnds(e: Ends, e': Ends) {
    && SameDebt(e.st, e'.st) && e'.st.link == e.st.link && e'.lk.visit == e.lk.visit
    && e'.st.pc !in {Deposit, Take}
    && (Linking(e.st.pc) ==> Linking(e'.st.pc) || (e'.st.pc == Idle && e'.st.linked))
    && (!Linking(e.st.pc) ==>
          e'.st.pc in {WaitLock, UnlinkDrain, Erase, EraseFlag, SetUnlinked} || (e'.st.pc == Idle && !e'.st.linked))
  }

  lemma DeferQuiet(e: Ends, x: nat, fails: bool)
    requires Deferring(e.st.pc)
    ensures QuietEnds(e, Defer(e, x, fails))
  {}

  lemma RegisterQuiet(e: Ends, x: nat)
    requires Linking(e.st.pc) && !Deferring(e.st.pc)
    ensures QuietEnds(e, Register(e, x))
  {}

  lemma UnregisterQuiet(e: Ends, x: nat)
    requires !Linking(e.st.pc) && e.st.pc !in {Idle, ResetValue, Take, Deposit}
    ensures QuietEnds(e, Unregister(e, x))
  {}

  /** The owner's steps that do not touch a value. */
  lemma EndsQuiet(e: Ends, x: nat, fails: bool)
    requires e.st.pc !in {Idle, ResetValue, Take, Deposit}
    ensures QuietEnds(e, OwnerEnds(e, x, fails))
  {
    hide CheckFires, Defer, Register, Unregister, QuietEnds;
    if Deferring(e.st.pc) {
      DeferQuiet(e, x, fails);
    } else if Linking(e.st.pc) {
      RegisterQuiet(e, x);
    } else {
      UnregisterQuiet(e, x);
    }
  }

  lemma OwnerStepBooks(s: State, x: nat, fails: bool)
    requires AllOk(s) && Books(s) && StatAt(s, x) && s.stats[x].pc !in {Idle, Deposit}
    ensures Books(NextOwner(s, x, fails))
  {
    hide Defer, Register, Unregister, LinkOk, StatOk, Balanced;
    var s' := NextOwner(s, x, fails);
    if s.stats[x].pc !in {ResetValue, Take} {
      EndsKeep(s, x, fails);
      EndsQuiet(EndsOf(s, x), x, fails);
    }
    forall y | 0 <= y < |s'.stats| ensures Quiet(s', y) {
      assert Quiet(s, y) && Quiet(s, x);
    }
    DebtsSameKeep(s, s');
  }

  // ----- steps that move value -----

  /** One stat's debt and its global stat's accounts change by matching amounts. */
  lemma Transfer(s: State, s': State, x: nat, was: Amount, now: Amount)
    requires Books(s) && x < |s.stats| && s.stats[x].ledger < |s.ledgers|
    requires |s'.ledgers| == |s.ledgers| && |s'.stats| == |s.stats| && s'.stats == s.stats[x := s'.stats[x]]
    requires s'.stats[x].ledger == s.stats[x].ledger && s'.stats[x].drained <= |s'.stats[x].history|
    requires forall g :: 0 <= g < |s.ledgers| && g != s.stats[x].ledger ==> s'.ledgers[g] == s.ledgers[g]
    requires var lg, lg' := s.ledgers[s.stats[x].ledger], s'.ledgers[s.stats[x].ledger];
      && lg'.kind == lg.kind
      && was == Owed(lg.kind, s.stats[x]) && now == Owed(lg.kind, s'.stats[x])
      && Minus(lg'.added, lg.added) == Plus(Minus(Plus(lg'.value, lg'.lost), Plus(lg.value, lg.lost)), Minus(now, was))
    requires forall y :: 0 <= y < |s'.stats| ==> Quiet(s', y)
    ensures Books(s')
  {
    hide Quiet, Owed;
    forall g | 0 <= g < |s'.ledgers| ensures Drainable(s'.stats) && Balanced(s', g) {
      assert Balanced(s, g);
      OwedUpdate(s.ledgers[g].kind, s.stats, x, s'.stats[x], g);
    }
    OwedUpdate(Series, s.stats, x, s'.stats[x], 0);
    DrainableUpdate(s.stats, x, s'.stats[x]);
  }

  lemma DrainableUpdate(stats: seq<Stat>, x: nat, st: Stat)
    requires Drainable(stats) && x < |stats| && st.drained <= |st.history|
    ensures Drainable(stats[x := st])
  {}

  /** Only one stat, and only the visit to it, changed. */
  lemma OthersQuiet(s: State, s': State, x: nat)
    requires Books(s) && |s'.links| == |s.links| && x < |s.stats| == |s'.stats| && s'.stats == s.stats[x := s'.stats[x]]
    requires forall l :: 0 <= l < |s.links| ==>
      s'.links[l].visit == s.links[l].visit || (s.links[l].visit.Visit? ==> s.links[l].visit.x == x)
    requires Quiet(s', x)
    ensures forall y :: 0 <= y < |s'.stats| ==> Quiet(s', y)
  {
    forall y | 0 <= y < |s'.stats| ensures Quiet(s', y) {
      assert Quiet(s, y);
    }
  }

  lemma GiveDebt(kind: Kind, st: Stat, u: Update)
    requires st.drained <= |st.history|
    ensures Owed(kind, st.(history := st.history + [u])) == Plus(Owed(kind, st), Exact(kind, [u]))
  {
    hide Exact;
    assert (st.history + [u])[st.drained..] == st.history[st.drained..] + [u];
    ExactConcat(kind, st.history[st.drained..], [u]);
  }

  lemma GiveBooks(s: State, x: nat, u: Update)
    requires AllOk(s) && Books(s) && StatAt(s, x) && s.stats[x].pc == Idle && s.stats[x].linked
    ensures Books(Give(s, x, u))
  {
    hide Exact, LinkOk, StatOk, Balanced, Owed;
    var s' := Give(s, x, u);
    var st := s.stats[x];
    var kind := s.ledgers[st.ledger].kind;
    assert Quiet(s, x);
    GiveDebt(kind, st, u);
    OthersQuiet(s, s', x);
    Transfer(s, s', x, Owed(kind, st), Owed(kind, s'.stats[x]));
  }

  /** A window that leaves the history becomes what is passed on plus what is lost. */
  lemma TakeDebt(kind: Kind, st: Stat, to: nat)
    requires st.drained <= to <= |st.history|
    ensures var w := st.history[st.drained..to];
      Exact(kind, st.history[st.drained..])
        == Plus(Plus(Passed(kind, w), Minus(Exact(kind, w), Passed(kind, w))), Exact(kind, st.history[to..]))
  {
    hide Exact, Passed;
    assert st.history[st.drained..] == st.history[st.drained..to] + st.history[to..];
    ExactConcat(kind, st.history[st.drained..to], st.history[to..]);
  }

  /** Either aggregate(), the owner's final one or a sweep's, takes its window off the same history. */
  lemma TakeBooks(s: State, s1: State, x: nat, to: nat, mine: Amount, swept: Amount, pc: Pc)
    requires Books(s) && StatAt(s, x) && s.stats[x].drained <= to <= |s.stats[x].history|
    requires Plus(mine, swept) == Plus(Plus(s.stats[x].mine, s.stats[x].swept), PassedNow(s, x, to))
    requires s1.stats == TakeWindow(s, x, to, mine, swept, pc).stats
    requires s1.ledgers == TakeWindow(s, x, to, mine, swept, pc).ledgers
    requires forall y :: 0 <= y < |s1.stats| ==> Quiet(s1, y)
    ensures Books(s1)
  {
    hide Exact, Passed, LinkOk, StatOk, Balanced, Quiet;
    var st := s.stats[x];
    var kind := s.ledgers[st.ledger].kind;
    TakeDebt(kind, st, to);
    Transfer(s, s1, x, Owed(kind, st), Owed(kind, s1.stats[x]));
  }

  lemma TakenStat(s: State, x: nat, to: nat, mine: Amount, swept: Amount, pc: Pc)
    requires StatAt(s, x) && s.stats[x].drained <= to <= |s.stats[x].history|
    ensures var s1 := TakeWindow(s, x, to, mine, swept, pc);
      && s1.links == s.links && |s1.ledgers| == |s.ledgers|
      && s1.stats == s.stats[x := s.stats[x].(drained := to, mine := mine, swept := swept, pc := pc)]
  {}

  /** A visit that is marked taken allows its stat a sweep in flight. */
  lemma MarkTakenBooks(s: State, l: nat)
    requires Books(s) && l < |s.links| && s.links[l].visit.Visit?
    ensures Books(PutLink(s, l, s.links[l].(visit := Visit(s.links[l].visit.x, true))))
  {
    hide Balanced, Owed;
    var s' := PutLink(s, l, s.links[l].(visit := Visit(s.links[l].visit.x, true)));
    forall y | 0 <= y < |s'.stats| ensures Quiet(s', y) {
      assert Quiet(s, y);
    }
    DebtsSameKeep(s, s');
  }

  lemma SweepWindowBooks(s: State, x: nat, to: nat)
    requires Books(s) && StatAt(s, x) && s.stats[x].drained <= to <= |s.stats[x].history|
    requires s.links[s.stats[x].link].visit == Visit(x, true) && s.stats[x].swept == NOTHING
    ensures Books(TakeWindow(s, x, to, s.stats[x].mine, PassedNow(s, x, to), s.stats[x].pc))
  {
    hide Exact, Passed, Balanced, Owed, TakeWindow, PassedNow, Drainable;
    var s' := TakeWindow(s, x, to, s.stats[x].mine, PassedNow(s, x, to), s.stats[x].pc);
    TakenStat(s, x, to, s.stats[x].mine, PassedNow(s, x, to), s.stats[x].pc);
    assert Quiet(s, x);
    OthersQuiet(s, s', x);
    TakeBooks(s, s', x, to, s.stats[x].mine, PassedNow(s, x, to), s.stats[x].pc);
  }

  lemma SweepTakeBooks(s: State, l: nat, to: nat)
    requires AllOk(s) && Books(s)
    ensures Books(Next(s, SweepTake(l, to)))
  {
    hide Books, Balanced, LinkOk, StatOk, TakeWindow, Passed;
    if Next(s, SweepTake(l, to)) != s {
      var x := s.links[l].visit.x;
      VisitedHere(s, l);
      NotYetSwept(s, l);
      MarkTakenBooks(s, l);
      SweepWindowBooks(PutLink(s, l, s.links[l].(visit := Visit(x, true))), x, to);
    }
  }

  lemma NotYetSwept(s: State, l: nat)
    requires Books(s) && l < |s.links| && s.links[l].visit.Visit? && !s.links[l].visit.taken
    requires s.links[l].visit.x < |s.stats| && s.stats[s.links[l].visit.x].link == l
    ensures s.stats[s.links[l].visit.x].swept == NOTHING
  {
    assert Quiet(s, s.links[l].visit.x);
  }

  lemma PlusNothing(a: Amount, b: Amount)
    ensures Plus(b, a) == Plus(Plus(NOTHING, a), b) && Plus(NOTHING, a) == a
  {}

  lemma OwnerWindowBooks(s: State, x: nat, to: nat)
    requires Books(s) && StatAt(s, x) && s.stats[x].drained <= to == |s.stats[x].history|
    requires s.stats[x].pc == Take
    ensures Books(TakeWindow(s, x, to, PassedNow(s, x, to), s.stats[x].swept, Deposit))
  {
    hide Exact, Passed, Balanced, Owed, TakeWindow, PassedNow, Drainable, Plus;
    var s' := TakeWindow(s, x, to, PassedNow(s, x, to), s.stats[x].swept, Deposit);
    TakenStat(s, x, to, PassedNow(s, x, to), s.stats[x].swept, Deposit);
    assert Quiet(s, x);
    PlusNothing(s.stats[x].swept, PassedNow(s, x, to));
    OthersQuiet(s, s', x);
    TakeBooks(s, s', x, to, PassedNow(s, x, to), s.stats[x].swept, Deposit);
  }

  lemma OwnerTakeBooks(s: State, x: nat, to: nat)
    requires AllOk(s) && Books(s)
    ensures Books(Next(s, OwnerTake(x, to)))
  {
    hide Balanced, LinkOk, StatOk, TakeWindow, Passed, PassedNow, Drainable;
    if Next(s, OwnerTake(x, to)) != s {
      assert Quiet(s, x);
      OwnerWindowBooks(s, x, to);
    }
  }

  lemma PaidDebt(kind: Kind, st: Stat)
    requires st.drained <= |st.history|
    ensures Owed(kind, st.(swept := NOTHING)) == Minus(Owed(kind, st), st.swept)
    ensures Owed(kind, st.(mine := NOTHING, pc := WaitLock)) == Minus(Owed(kind, st), st.mine)
  {
    hide Exact;
  }

  lemma DepositShape(s: State, x: nat, fails: bool)
    requires StatAt(s, x) && s.stats[x].pc == Deposit
    ensures var st := s.stats[x];
      NextOwner(s, x, fails) == Pay(PutStat(s, x, st.(mine := NOTHING, pc := WaitLock)), st.ledger, st.mine)
  {
    hide Defer, Register, Unregister, Pay;
  }

  lemma DepositBooks(s: State, x: nat, fails: bool)
    requires AllOk(s) && Books(s) && StatAt(s, x) && s.stats[x].pc == Deposit
    ensures Books(NextOwner(s, x, fails))
  {
    hide Exact, AllOk, Balanced, Owed, Drainable, NextOwner;
    var s' := NextOwner(s, x, fails);
    var st := s.stats[x];
    var kind := s.ledgers[st.ledger].kind;
    DepositShape(s, x, fails);
    assert Quiet(s, x);
    OthersQuiet(s, s', x);
    PaidDebt(kind, st);
    Transfer(s, s', x, Owed(kind, st), Owed(kind, s'.stats[x]));
  }

  lemma SweepDepositShape(s: State, l: nat)
    requires Next(s, SweepDeposit(l)) != s
    ensures var s', x := Next(s, SweepDeposit(l)), s.links[l].visit.x;
      && StatAt(s, x)
      && var st := s.stats[x];
         && s' == PutLink(Pay(PutStat(s, x, st.(swept := NOTHING)), st.ledger, st.swept),
                          l, s.links[l].(visit := NoVisit))
         && l < |s.links| && s.links[l].visit == Visit(x, true)
  {
    hide Pay, PutStat;
  }

  lemma SweepDepositBooks(s: State, l: nat)
    requires AllOk(s) && Books(s)
    ensures Books(Next(s, SweepDeposit(l)))
  {
    hide Exact, AllOk, Balanced, Owed, Drainable;
    var s' := Next(s, SweepDeposit(l));
    if s' != s {
      var x := s.links[l].visit.x;
      var st := s.stats[x];
      var kind := s.ledgers[st.ledger].kind;
      VisitedHere(s, l);
      SweepDepositShape(s, l);
      hide Next;
      assert Quiet(s, x);
      OthersQuiet(s, s', x);
      PaidDebt(kind, st);
      Transfer(s, s', x, Owed(kind, st), Owed(kind, s'.stats[x]));
    }
  }

  /** The stat a sweep is visiting belongs to the swept link. */
  lemma VisitedHere(s: State, l: nat)
    requires AllOk(s) && l < |s.links| && s.links[l].visit.Visit?
    ensures var x := s.links[l].visit.x;
      x < |s.stats| && s.stats[x].link == l && Belongs(s.stats[x])
  {
    assert LinkOk(s, l);
    assert Registered(s.links[l], s.links[l].visit.x);
  }

  // ----- the remaining steps -----

  lemma SettledOwesNothing(kind: Kind, st: Stat)
    requires st.drained == |st.history| && st.mine == NOTHING && st.swept == NOTHING
    ensures Owed(kind, st) == NOTHING
  {
    hide Exact;
    assert st.history[st.drained..] == [];
    NothingExact(kind);
  }

  lemma NothingExact(kind: Kind)
    ensures Exact(kind, []) == NOTHING
  {}

  /** A stat at rest owes nothing, whoever swept it. */
  lemma RestingOwesNothing(s: State, x: nat, kind: Kind)
    requires AllOk(s) && Books(s) && x < |s.stats| && s.stats[x].pc == Idle && !s.stats[x].linked
    ensures s.stats[x].drained == |s.stats[x].history| && s.stats[x].mine == NOTHING && s.stats[x].swept == NOTHING
    ensures Owed(kind, s.stats[x]) == NOTHING
  {
    hide Exact, Owed, StatOk, Drainable, Balanced;
    assert Quiet(s, x);
    if s.stats[x].swept != NOTHING {
      VisitedHere(s, s.stats[x].link);
    }
    SettledOwesNothing(kind, s.stats[x]);
  }

  lemma AppendBooks(s: State, l: nat, g: nat)
    requires Books(s) && g < |s.ledgers|
    ensures Books(s.(stats := s.stats + [NewStat(l, g)]))
  {
    hide Exact, Owed;
    var s' := s.(stats := s.stats + [NewStat(l, g)]);
    assert s'.stats[..|s.stats|] == s.stats;
    forall x | 0 <= x < |s'.stats| ensures Quiet(s', x) {
      if x < |s.stats| {
        assert Quiet(s, x);
      }
    }
    forall k | 0 <= k < |s'.ledgers| ensures Balanced(s', k) {
      assert Balanced(s, k);
      SettledOwesNothing(s.ledgers[k].kind, NewStat(l, g));
    }
  }

  /** A stat at rest may change its global stat: the debt it takes along is nothing. */
  lemma RebindBooks(s: State, x: nat, st: Stat)
    requires AllOk(s) && Books(s) && x < |s.stats| && s.stats[x].pc == Idle && !s.stats[x].linked
    requires st.pc == Idle && !st.linked && st.drained == |st.history| && st.mine == NOTHING && st.swept == NOTHING
    ensures Books(PutStat(s, x, st))
  {
    hide Exact, Owed, LinkOk, StatOk;
    var s' := PutStat(s, x, st);
    OthersQuiet(s, s', x);
    forall g | 0 <= g < |s'.ledgers| ensures Balanced(s', g) {
      assert Balanced(s, g);
      RestingOwesNothing(s, x, s.ledgers[g].kind);
      SettledOwesNothing(s.ledgers[g].kind, st);
      OwedUpdate(s.ledgers[g].kind, s.stats, x, st, g);
    }
  }

  lemma RefsBooks(s: State, l: nat)
    requires Books(s)
    ensures Books(IncRef(s, l)) && Books(DecRef(s, l))
  {
    hide Owed, OwedTo;
    forall x | 0 <= x < |s.stats| ensures Quiet(IncRef(s, l), x) && Quiet(DecRef(s, l), x) {
      assert Quiet(s, x);
    }
    forall g | 0 <= g < |s.ledgers| ensures Balanced(IncRef(s, l), g) && Balanced(DecRef(s, l), g) {
      assert Balanced(s, g);
    }
  }

  /** Steps that only take or release locks, begin a call, or start a visit. */
  predicate IsQuietStep(a: Action) {
    a.BeginLink? || a.BeginUnlink? || a.SweepLock? || a.SweepVisit? || a.SweepUnlock?
    || a.DrainStep? || a.DestroyLock? || a.DestroyBody?
  }

  lemma BeginStepBooks(s: State, a: Action)
    requires Books(s) && (a.BeginLink? || a.BeginUnlink? || a.SweepVisit?)
    ensures Books(Next(s, a))
  {
    hide Balanced, Owed;
    var s' := Next(s, a);
    if s' != s {
      forall y | 0 <= y < |s'.stats| ensures Quiet(s', y) {
        assert Quiet(s, y);
      }
      DebtsSameKeep(s, s');
    }
  }

  /** Nothing changes but links, none of which gains or loses a visit. */
  lemma LinksOnlyBooks(s: State, s': State)
    requires Books(s) && s'.stats == s.stats && s'.ledgers == s.ledgers && |s'.links| == |s.links|
    requires forall l :: 0 <= l < |s.links| ==> s'.links[l].visit == s.links[l].visit
    ensures Books(s')
  {
    hide Balanced, Owed;
    forall y | 0 <= y < |s'.stats| ensures Quiet(s', y) {
      assert Quiet(s, y);
    }
    DebtsSameKeep(s, s');
  }

  lemma QuietStepBooks(s: State, a: Action)
    requires Books(s) && IsQuietStep(a)
    ensures Books(Next(s, a))
  {
    hide Books, DrainCheckFires;
    if a.BeginLink? || a.BeginUnlink? || a.SweepVisit? {
      BeginStepBooks(s, a);
    } else {
      LinksOnlyBooks(s, Next(s, a));
    }
  }

  predicate NoShare(kind: Kind, stats: seq<Stat>, g: nat)
    requires Drainable(stats)
  {
    forall x :: 0 <= x < |stats| ==> Share(kind, stats[x], g) == NOTHING
  }

  lemma {:induction false} NoDebts(kind: Kind, stats: seq<Stat>, g: nat, n: nat)
    requires Drainable(stats) && NoShare(kind, stats, g) && n <= |stats|
    ensures Drainable(stats[..n]) && OwedTo(kind, stats[..n], g) == NOTHING
  {
    hide *;
    PrefixDrainable(stats, n);
    if n == 0 {
      assert stats[..n] == [];
      NothingOwed(kind, g);
    } else {
      NoShareAt(kind, stats, g, n - 1);
      NoDebts(kind, stats, g, n - 1);
      OwedPrefix(kind, stats, g, n);
      NothingPlus();
    }
  }

  lemma NothingPlus()
    ensures Plus(NOTHING, NOTHING) == NOTHING
  {}

  lemma PrefixDrainable(stats: seq<Stat>, n: nat)
    requires Drainable(stats) && n <= |stats|
    ensures Drainable(stats[..n])
  {}

  lemma NothingOwed(kind: Kind, g: nat)
    ensures OwedTo(kind, [], g) == NOTHING
  {}

  lemma OwedPrefix(kind: Kind, stats: seq<Stat>, g: nat, n: nat)
    requires Drainable(stats) && 0 < n <= |stats|
    ensures Drainable(stats[..n]) && Drainable(stats[..n - 1])
    ensures OwedTo(kind, stats[..n], g) == Plus(OwedTo(kind, stats[..n - 1], g), Share(kind, stats[n - 1], g))
  {
    hide Share;
    assert stats[..n][..n - 1] == stats[..n - 1];
  }

  lemma NoShareAt(kind: Kind, stats: seq<Stat>, g: nat, n: nat)
    requires Drainable(stats) && NoShare(kind, stats, g) && n < |stats|
    ensures stats[n].drained <= |stats[n].history| && Share(kind, stats[n], g) == NOTHING
  {
    hide Share;
  }

  /** A global stat that no stat refers to is owed nothing. */
  lemma UnreferencedOwedNothing(s: State, kind: Kind)
    requires AllOk(s) && Books(s)
    ensures OwedTo(kind, s.stats, |s.ledgers|) == NOTHING
  {
    hide Owed, OwedTo, LinkOk, StatOk, Balanced, Quiet;
    LedgersBound(s);
    assert s.stats[..|s.stats|] == s.stats;
    NoDebts(kind, s.stats, |s.ledgers|, |s.stats|);
  }

  lemma NewLedgerBooks(s: State, lg: Ledger)
    requires AllOk(s) && Books(s) && lg.value == NOTHING && lg.added == NOTHING && lg.lost == NOTHING
    ensures Books(s.(ledgers := s.ledgers + [lg]))
  {
    hide Owed, OwedTo, AllOk, Drainable, Balanced;
    var s' := s.(ledgers := s.ledgers + [lg]);
    forall y | 0 <= y < |s'.stats| ensures Quiet(s', y) {
      assert Quiet(s, y);
    }
    forall g | 0 <= g < |s'.ledgers| ensures Balanced(s', g) {
      if g < |s.ledgers| {
        assert Balanced(s, g);
        SameBalance(s, s', g);
      } else {
        NewBalance(s, lg);
      }
    }
  }

  lemma SameBalance(s: State, s': State, g: nat)
    requires g < |s.ledgers| && g < |s'.ledgers| && s'.stats == s.stats && s'.ledgers[g] == s.ledgers[g]
    requires Drainable(s.stats) && Balanced(s, g)
    ensures Balanced(s', g)
  {
    hide Plus, OwedTo, Drainable;
  }

  lemma NewBalance(s: State, lg: Ledger)
    requires AllOk(s) && Books(s) && lg.value == NOTHING && lg.added == NOTHING && lg.lost == NOTHING
    ensures Balanced(s.(ledgers := s.ledgers + [lg]), |s.ledgers|)
  {
    hide Owed, OwedTo, AllOk, Drainable, Quiet, Plus;
    UnreferencedOwedNothing(s, lg.kind);
    PlusNothing(NOTHING, NOTHING);
  }

  lemma NewContainerBooks(s: State)
    requires AllOk(s) && Books(s)
    ensures Books(Next(s, NewContainer))
  {
    hide Owed, Balanced, LinkOk, StatOk;
    var s' := Next(s, NewContainer);
    LedgersBound(s);
    forall y | 0 <= y < |s'.stats| ensures Quiet(s', y) {
      assert Quiet(s, y);
    }
    DebtsSameKeep(s, s');
  }

  lemma MoveAssignBooks(s: State, x: nat, y: nat)
    requires AllOk(s) && Books(s) && x != y && Resting(s, x) && Resting(s, y)
    ensures Books(Replace(s, x, y))
  {
    hide Books, LinkOk, StatOk, Places, Owed;
    var a, b := s.stats[x], s.stats[y];
    var s1 := DecRef(s, a.link);
    var s2 := IncRef(s1, b.link);
    var a' := a.(link := b.link, ledger := b.ledger, history := [], drained := 0);
    var b' := b.(ledger := a.ledger, history := [], drained := 0);
    RefsKeep(s, a.link);
    RefsBooks(s, a.link);
    RefsKeep(s1, b.link);
    RefsBooks(s1, b.link);
    RestingOwesNothing(s2, x, Series);
    RestingOwesNothing(s2, y, Series);
    RebindBooks(s2, x, a');
    RestingMoves(s2, x, a');
    RebindBooks(PutStat(s2, x, a'), y, b');
  }

  lemma LifetimeBooks(s: State, a: Action)
    requires AllOk(s) && Books(s)
    requires a.Construct? || a.MoveConstruct? || a.MoveAssign? || a.DestroyStat? || a.ReleaseContainer?
    ensures Books(Next(s, a))
  {
    hide Books, LinkOk, StatOk, Places, Owed, Replace;
    if Next(s, a) != s {
      match a
      case Construct(l, g) =>
        AppendBooks(s, l, g);
        RefsBooks(s.(stats := s.stats + [NewStat(l, g)]), l);
      case MoveConstruct(x) =>
        AppendBooks(s, s.stats[x].link, s.stats[x].ledger);
        RefsBooks(s.(stats := s.stats + [NewStat(s.stats[x].link, s.stats[x].ledger)]), s.stats[x].link);
      case MoveAssign(x, y) => MoveAssignBooks(s, x, y);
      case DestroyStat(x) =>
        RestingOwesNothing(s, x, Series);
        RebindBooks(s, x, s.stats[x].(live := false));
        RefsBooks(PutStat(s, x, s.stats[x].(live := false)), s.stats[x].link);
      case ReleaseContainer(l) =>
        DisownBooks(s, l);
        RefsBooks(PutLink(s, l, s.links[l].(owned := false)), l);
      case _ =>
    }
  }

  lemma DisownBooks(s: State, l: nat)
    requires Books(s) && l < |s.links|
    ensures Books(PutLink(s, l, s.links[l].(owned := false)))
  {
    hide Balanced, Owed;
    var s' := PutLink(s, l, s.links[l].(owned := false));
    forall y | 0 <= y < |s'.stats| ensures Quiet(s', y) {
      assert Quiet(s, y);
    }
    DebtsSameKeep(s, s');
  }

  lemma StepBooks(s: State, a: Action)
    requires AllOk(s) && Books(s)
    ensures Books(Next(s, a))
  {
    hide Books, LinkOk, StatOk, NextOwner, Give;
    match a
    case OwnerStep(x, fails) =>
      if StatAt(s, x) && s.stats[x].pc != Idle {
        if s.stats[x].pc == Deposit {
          DepositBooks(s, x, fails);
        } else {
          OwnerStepBooks(s, x, fails);
        }
      }
    case AddValue(x, u) =>
      if Next(s, a) != s {
        GiveBooks(s, x, u);
      }
    case NewLedger(kind) => NewLedgerBooks(s, Ledger(kind, NOTHING, NOTHING, NOTHING));
    case NewContainer => NewContainerBooks(s);
    case OwnerTake(x, to) => OwnerTakeBooks(s, x, to);
    case SweepTake(l, to) => SweepTakeBooks(s, l, to);
    case SweepDeposit(l) => SweepDepositBooks(s, l);
    case _ =>
      if IsQuietStep(a) {
        QuietStepBooks(s, a);
      } else {
        LifetimeBooks(s, a);
      }
  }

  lemma {:induction false} RunBooks(acts: seq<Action>)
    ensures AllOk(Run(acts)) && Books(Run(acts))
  {
    hide Books, AllOk, Next;
    RunKeeps(acts);
    if acts == [] {
      EmptyBooks();
    } else {
      RunBooks(acts[..|acts| - 1]);
      StepBooks(Run(acts[..|acts| - 1]), acts[|acts| - 1]);
    }
  }

  lemma EmptyBooks()
    ensures Books(INIT)
  {}

  // ----- what holds of every run -----

  /**
    In every reachable state, what a global stat's stats were given is what it has, what
    aggregate() dropped, and what they still owe, each update exactly once, whatever
    sweeps, unlinks, moves and container destructions ran concurrently.
   */
  lemma GivenIsPassedLostOrOwed(acts: seq<Action>, g: nat)
    requires g < |Run(acts).ledgers|
    ensures var s := Run(acts);
      Drainable(s.stats)
      && s.ledgers[g].added == Plus(Plus(s.ledgers[g].value, s.ledgers[g].lost), OwedTo(s.ledgers[g].kind, s.stats, g))
  {
    hide Run, AllOk, Owed, OwedTo;
    RunBooks(acts);
    assert Balanced(Run(acts), g);
  }

  /** When unlink() has returned the stat owes nothing: everything it was given has left it. */
  lemma UnlinkedOwesNothing(acts: seq<Action>, x: nat, kind: Kind)
    requires x < |Run(acts).stats| && Run(acts).stats[x].pc == Idle && !Run(acts).stats[x].linked
    ensures var st := Run(acts).stats[x];
      st.drained == |st.history| && st.mine == NOTHING && st.swept == NOTHING && Owed(kind, st) == NOTHING
  {
    hide Run, Owed;
    RunBooks(acts);
    RestingOwesNothing(Run(acts), x, kind);
  }

  predicate AllUnlinked(s: State, g: nat) {
    forall x :: 0 <= x < |s.stats| && s.stats[x].ledger == g ==> s.stats[x].pc == Idle && !s.stats[x].linked
  }

  /** Once every stat of a global stat is unlinked, all they were given is in it or lost. */
  lemma UnlinkedIsPassedOrLost(acts: seq<Action>, g: nat)
    requires g < |Run(acts).ledgers| && AllUnlinked(Run(acts), g)
    ensures var lg := Run(acts).ledgers[g]; lg.added == Plus(lg.value, lg.lost)
  {
    hide Run, AllOk, Owed, OwedTo;
    RunBooks(acts);
    var s := Run(acts);
    var kind := s.ledgers[g].kind;
    forall x | 0 <= x < |s.stats| ensures Share(kind, s.stats[x], g) == NOTHING {
      if s.stats[x].ledger == g {
        RestingOwesNothing(s, x, kind);
      }
    }
    assert s.stats[..|s.stats|] == s.stats;
    NoDebts(kind, s.stats, g, |s.stats|);
    assert Balanced(s, g);
  }

  // ----- what is lost -----

  /** Both totals of a window fit, and a zero count hides no sum. */
  predicate Passable(w: seq<Update>) {
    InType(TWO64, Total(Count, w)) && InType(TWO64, Total(Value, w)) && (Total(Count, w) != 0 || Total(Value, w) == 0)
  }

  /** A window passes to its global time series undamaged exactly when it is passable. */
  lemma PassedExactIff(w: seq<Update>)
    ensures Passed(Series, w) == Exact(Series, w) <==> Passable(w)
  {}

  /** The skip in aggregate() is real: an update with count 0 can take its value with it. */
  lemma ZeroCountDropsTheSum()
    ensures Passed(Series, [Update(5, 0)]) == NOTHING && Exact(Series, [Update(5, 0)]).sum == 5
  {
    TotalAppend(Value, [], Update(5, 0));
    TotalAppend(Count, [], Update(5, 0));
    assert [] + [Update(5, 0)] == [Update(5, 0)];
  }

  lemma {:induction false} PositiveCounts(w: seq<Update>)
    requires forall i :: 0 <= i < |w| ==> w[i].count >= 1
    ensures Total(Count, w) >= |w|
  {
    if w != [] {
      PositiveCounts(w[..|w| - 1]);
    }
  }

  /** A counter loses only multiples of 2^64. */
  lemma CounterLossIsAWrap(w: seq<Update>)
    ensures Minus(Exact(Counter, w), Passed(Counter, w)).sum % TWO64 == 0
    ensures Minus(Exact(Counter, w), Passed(Counter, w)).count == 0
  {
    var v := Total(Value, w);
    WrapMultiple(v);
  }

  lemma WrapMultiple(v: int)
    ensures (v - Signed64(v)) % TWO64 == 0
  {
    assert v == TWO64 * (v / TWO64) + v % TWO64;
  }

  /** The window of `g` that an action takes, if it takes one. */
  predicate TakesWindow(s: State, a: Action, g: nat, w: seq<Update>) {
    match a
    case OwnerTake(x, to) =>
      && StatAt(s, x) && s.stats[x].pc == Take && TakesTo(s.stats[x], s.stats[x].began, to)
      && g == s.stats[x].ledger && w == s.stats[x].history[s.stats[x].drained..to]
    case SweepTake(l, to) =>
      && Sweeping(s, l) && s.links[l].visit.Visit? && !s.links[l].visit.taken && StatAt(s, s.links[l].visit.x)
      && var st := s.stats[s.links[l].visit.x];
         TakesTo(st, st.sweepBegan, to) && g == st.ledger && w == st.history[st.drained..to]
    case _ => false
  }

  function Damage(kind: Kind, w: seq<Update>): Amount { Minus(Exact(kind, w), Passed(kind, w)) }

  /** A step writes off the damage of the window it takes, and nothing else. */
  ghost predicate WritesOff(s: State, a: Action, g: nat) {
    var s' := Next(s, a);
    && |s'.ledgers| >= |s.ledgers|
    && (g < |s.ledgers| ==>
          && s'.ledgers[g].kind == s.ledgers[g].kind
          && (forall w :: TakesWindow(s, a, g, w) ==>
                s'.ledgers[g].lost == Plus(s.ledgers[g].lost, Damage(s.ledgers[g].kind, w)))
          && ((forall w :: !TakesWindow(s, a, g, w)) ==> s'.ledgers[g].lost == s.ledgers[g].lost))
    && (|s.ledgers| <= g < |s'.ledgers| ==> s'.ledgers[g].lost == NOTHING)
  }

  lemma OwnerTakeWritesOff(s: State, x: nat, to: nat, g: nat)
    ensures WritesOff(s, OwnerTake(x, to), g)
  {
    hide Exact, Passed, Plus, Minus;
    if StatAt(s, x) && s.stats[x].pc == Take && TakesTo(s.stats[x], s.stats[x].began, to) && g == s.stats[x].ledger {
      assert TakesWindow(s, OwnerTake(x, to), g, s.stats[x].history[s.stats[x].drained..to]);
    }
  }

  lemma SweepTakeWritesOff(s: State, l: nat, to: nat, g: nat)
    ensures WritesOff(s, SweepTake(l, to), g)
  {
    hide Exact, Passed, Plus, Minus;
    if Next(s, SweepTake(l, to)) != s && g == s.stats[s.links[l].visit.x].ledger {
      var st := s.stats[s.links[l].visit.x];
      assert TakesWindow(s, SweepTake(l, to), g, st.history[st.drained..to]);
    }
  }

  /** No other step writes off anything, nor changes what a stat was given but to clear it or add to it. */
  predicate NoNewLoss(s: State, s': State) {
    && |s'.ledgers| >= |s.ledgers|
    && (forall g :: 0 <= g < |s'.ledgers| ==>
          if g < |s.ledgers| then s'.ledgers[g].kind == s.ledgers[g].kind && s'.ledgers[g].lost == s.ledgers[g].lost
          else s'.ledgers[g].lost == NOTHING)
    && |s'.stats| >= |s.stats|
    && (forall x :: 0 <= x < |s'.stats| ==>
          s'.stats[x].history == [] || (x < |s.stats| && s'.stats[x].history == s.stats[x].history))
  }

  lemma OwnerNoNewLoss(s: State, x: nat, fails: bool)
    requires StatAt(s, x)
    ensures NoNewLoss(s, NextOwner(s, x, fails))
  {
    hide Defer, Register, Unregister, CheckFires;
    OwnerKeepsHistory(EndsOf(s, x), x, fails);
  }

  lemma OwnerKeepsHistory(e: Ends, x: nat, fails: bool)
    ensures Defer(e, x, fails).st.history == e.st.history && Register(e, x).st.history == e.st.history
    ensures Unregister(e, x).st.history == e.st.history
  {}

  lemma OtherNoNewLoss(s: State, a: Action)
    requires !a.OwnerTake? && !a.SweepTake? && !a.AddValue?
    ensures NoNewLoss(s, Next(s, a))
  {
    hide NextOwner, TakeWindow, Give, Drain, Replace, IncRef, DecRef, DrainCheckFires, PassedNow, TakesTo;
    if a.OwnerStep? {
      if StatAt(s, a.x) {
        OwnerNoNewLoss(s, a.x, a.fails);
      }
    } else {
      CountingLosesNothing(s, a);
    }
  }

  lemma CountingLosesNothing(s: State, a: Action)
    ensures a.Construct? || a.MoveConstruct? || a.MoveAssign? || a.DestroyStat? || a.ReleaseContainer? ==>
              NoNewLoss(s, Next(s, a))
  {
    hide NextOwner, TakeWindow, Give, Drain, Pay, PassedNow;
  }

  lemma GiveLosesNothing(s: State, x: nat, u: Update)
    ensures var s' := Next(s, AddValue(x, u));
      && |s'.ledgers| == |s.ledgers|
      && forall g :: 0 <= g < |s.ledgers| ==>
           s'.ledgers[g].kind == s.ledgers[g].kind && s'.ledgers[g].lost == s.ledgers[g].lost
  {
    hide Exact;
  }

  lemma StepWritesOff(s: State, a: Action, g: nat)
    ensures WritesOff(s, a, g)
  {
    hide Next, TakesTo, Sweeping;
    if a.OwnerTake? {
      OwnerTakeWritesOff(s, a.x, a.to, g);
    } else if a.SweepTake? {
      SweepTakeWritesOff(s, a.l, a.to, g);
    } else if a.AddValue? {
      GiveLosesNothing(s, a.x, a.u);
    } else {
      OtherNoNewLoss(s, a);
    }
  }

  // ----- exact runs -----

  /** Every window that the run took for `g` was passable. */
  ghost predicate CleanRun(acts: seq<Action>, g: nat) {
    acts != [] ==>
      && CleanRun(acts[..|acts| - 1], g)
      && forall w :: TakesWindow(Run(acts[..|acts| - 1]), acts[|acts| - 1], g, w) ==> Passable(w)
  }

  /** At no point of the run had aggregate() dropped anything of `g`. */
  predicate LosslessRun(acts: seq<Action>, g: nat) {
    && (g < |Run(acts).ledgers| ==> Run(acts).ledgers[g].lost == NOTHING)
    && (acts != [] ==> LosslessRun(acts[..|acts| - 1], g))
  }

  lemma AddsToNothing(lost: Amount, damage: Amount)
    requires lost == NOTHING
    ensures Plus(lost, damage) == NOTHING <==> damage == NOTHING
  {}

  lemma DamageIff(w: seq<Update>)
    ensures Damage(Series, w) == NOTHING <==> Passable(w)
  {
    hide Passed, Exact, Passable;
    PassedExactIff(w);
  }

  /** One more step stays lossless exactly when the window it takes, if any, is passable. */
  lemma StepLosslessIff(s: State, a: Action, g: nat)
    requires g < |s.ledgers| && s.ledgers[g].kind == Series && s.ledgers[g].lost == NOTHING
    ensures g < |Next(s, a).ledgers|
    ensures Next(s, a).ledgers[g].lost == NOTHING <==> forall w :: TakesWindow(s, a, g, w) ==> Passable(w)
  {
    hide Next, TakesWindow, Damage, Passable, Plus;
    StepWritesOff(s, a, g);
    forall w | TakesWindow(s, a, g, w) ensures Next(s, a).ledgers[g].lost == NOTHING <==> Passable(w) {
      AddsToNothing(s.ledgers[g].lost, Damage(Series, w));
      DamageIff(w);
    }
  }

  /** A time series' windows are passable throughout a run exactly when nothing of it is dropped at any point. */
  lemma {:induction false} LosslessIff(acts: seq<Action>, g: nat)
    requires g < |Run(acts).ledgers| ==> Run(acts).ledgers[g].kind == Series
    ensures LosslessRun(acts, g) <==> CleanRun(acts, g)
  {
    hide Next, Passable, TakesWindow;
    if acts != [] {
      var before, a := acts[..|acts| - 1], acts[|acts| - 1];
      StepWritesOff(Run(before), a, g);
      LosslessIff(before, g);
      if g < |Run(before).ledgers| {
        if LosslessRun(before, g) {
          StepLosslessIff(Run(before), a, g);
        }
      } else {
        UnknownTakesNothing(Run(before), a, g);
      }
    }
  }

  lemma UnknownTakesNothing(s: State, a: Action, g: nat)
    requires g >= |s.ledgers|
    ensures forall w :: !TakesWindow(s, a, g, w)
  {}

  /**
    End to end, for a time series: if every window that aggregate() took for it fits and
    hides no sum behind a zero count, then once its stats are unlinked the global stat has
    exactly the count and the sum of everything they were given.
   */
  lemma SeriesConserved(acts: seq<Action>, g: nat)
    requires g < |Run(acts).ledgers| && Run(acts).ledgers[g].kind == Series
    requires CleanRun(acts, g) && AllUnlinked(Run(acts), g)
    ensures Run(acts).ledgers[g].value == Run(acts).ledgers[g].added
  {
    hide Run, CleanRun, AllUnlinked;
    UnlinkedIsPassedOrLost(acts, g);
    LosslessIff(acts, g);
  }

  // ----- samples that all count -----

  /** Every sample counts at least once, and no window of `g` saturates. */
  ghost predicate CountedRun(acts: seq<Action>, g: nat) {
    acts != [] ==>
      var s, a := Run(acts[..|acts| - 1]), acts[|acts| - 1];
      && CountedRun(acts[..|acts| - 1], g)
      && (a.AddValue? ==> a.u.count >= 1)
      && forall w :: TakesWindow(s, a, g, w) ==> InType(TWO64, Total(Count, w)) && InType(TWO64, Total(Value, w))
  }

  predicate AllCounted(h: seq<Update>) {
    forall i :: 0 <= i < |h| ==> h[i].count >= 1
  }

  predicate StatsCounted(s: State) {
    forall x :: 0 <= x < |s.stats| ==> AllCounted(s.stats[x].history)
  }

  /** A window of samples that all count has no zero count unless it is empty. */
  lemma CountedIsPassable(w: seq<Update>)
    requires AllCounted(w) && InType(TWO64, Total(Count, w)) && InType(TWO64, Total(Value, w))
    ensures Passable(w)
  {
    PositiveCounts(w);
  }

  lemma TakeKeepsHistories(s: State, a: Action)
    requires a.OwnerTake? || a.SweepTake?
    ensures |Next(s, a).stats| == |s.stats|
    ensures forall x :: 0 <= x < |s.stats| ==> Next(s, a).stats[x].history == s.stats[x].history
  {
    hide Exact, Passed;
  }

  lemma StepCounted(s: State, a: Action)
    requires StatsCounted(s) && (a.AddValue? ==> a.u.count >= 1)
    ensures StatsCounted(Next(s, a))
  {
    if a.OwnerTake? || a.SweepTake? {
      hide Next;
      TakeKeepsHistories(s, a);
    } else if !a.AddValue? {
      hide Next;
      OtherNoNewLoss(s, a);
    } else {
      hide Exact;
    }
  }

  lemma {:induction false} CountedIsClean(acts: seq<Action>, g: nat)
    requires CountedRun(acts, g)
    ensures CleanRun(acts, g) && StatsCounted(Run(acts))
  {
    hide Next, Passable, InType, Total;
    if acts != [] {
      var before, a := acts[..|acts| - 1], acts[|acts| - 1];
      CountedIsClean(before, g);
      StepCounted(Run(before), a);
      forall w | TakesWindow(Run(before), a, g, w) ensures Passable(w) {
        CountedIsPassable(w);
      }
    }
  }

  /** So samples that all count are conserved as long as no window of theirs saturates. */
  lemma CountedSeriesConserved(acts: seq<Action>, g: nat)
    requires g < |Run(acts).ledgers| && Run(acts).ledgers[g].kind == Series
    requires CountedRun(acts, g) && AllUnlinked(Run(acts), g)
    ensures Run(acts).ledgers[g].value == Run(acts).ledgers[g].added
  {
    hide Run, CountedRun, CleanRun, AllUnlinked;
    CountedIsClean(acts, g);
    SeriesConserved(acts, g);
  }

  // ----- counters -----

  lemma AddMultiples(a: int, b: int)
    requires a % TWO64 == 0 && b % TWO64 == 0
    ensures (a + b) % TWO64 == 0
  {}

  lemma CounterWriteOff(lost: Amount, w: seq<Update>)
    requires lost.sum % TWO64 == 0
    ensures Plus(lost, Damage(Counter, w)).sum % TWO64 == 0
  {
    hide Passed, Exact, Minus;
    CounterLossIsAWrap(w);
    AddMultiples(lost.sum, Damage(Counter, w).sum);
  }

  lemma {:induction false} CounterLosses(acts: seq<Action>, g: nat)
    requires g < |Run(acts).ledgers| && Run(acts).ledgers[g].kind == Counter
    ensures Run(acts).ledgers[g].lost.sum % TWO64 == 0
  {
    hide Next, TakesWindow, Damage, Plus;
    if acts != [] {
      var before, a := Run(acts[..|acts| - 1]), acts[|acts| - 1];
      StepWritesOff(before, a, g);
      if g < |before.ledgers| {
        CounterLosses(acts[..|acts| - 1], g);
        if w :| TakesWindow(before, a, g, w) {
          CounterWriteOff(before.ledgers[g].lost, w);
        }
      }
    }
  }

  /** For a counter it holds modulo 2^64, with no condition. */
  lemma CounterConserved(acts: seq<Action>, g: nat)
    requires g < |Run(acts).ledgers| && Run(acts).ledgers[g].kind == Counter && AllUnlinked(Run(acts), g)
    ensures (Run(acts).ledgers[g].added.sum - Run(acts).ledgers[g].value.sum) % TWO64 == 0
  {
    hide Run, AllUnlinked;
    UnlinkedIsPassedOrLost(acts, g);
    CounterLosses(acts, g);
  }
}
