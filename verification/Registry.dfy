/**
  Registration of thread-local stats with their containers, as a step machine: any number
  of containers, of stats with an owner inside link() or unlink(), of sweeps and of
  container destructions.  Steps are single accesses to what threads share; what only the
  holder of a lock touches is one step per source statement.

  A stat's reset() is the one `Seqlock` proves: it takes a window that starts where the
  last one ended and holds at least every update complete when the call began.
 */
module Registry {
  import opened Words
  import opened History

  // ----- what a stat owes and a global stat has -----

  datatype Kind = Series | Counter

  datatype Amount = Amount(count: int, sum: int)

  const NOTHING := Amount(0, 0)

  function Plus(a: Amount, b: Amount): Amount { Amount(a.count + b.count, a.sum + b.sum) }
  function Minus(a: Amount, b: Amount): Amount { Amount(a.count - b.count, a.sum - b.sum) }

  /** The exact totals of a window. */
  function Exact(kind: Kind, w: seq<Update>): Amount {
    Amount(if kind == Series then Total(Count, w) else 0, Total(Value, w))
  }

  /**
    What aggregate() passes on for a window: a time series clamps both totals and skips a
    window whose count is zero; a counter wraps in 64 bits.
   */
  function Passed(kind: Kind, w: seq<Update>): Amount {
    match kind
    case Series =>
      var c, v := ClampInt(TWO64, Total(Count, w)), ClampInt(TWO64, Total(Value, w));
      if c == 0 then NOTHING else Amount(c, v)
    case Counter => Amount(0, Signed64(Total(Value, w)))
  }

  /** A global stat; `added` and `lost` are ghost accounts of what its stats were given and what aggregate() dropped. */
  datatype Ledger = Ledger(kind: Kind, value: Amount, added: Amount, lost: Amount)

  // ----- containers and stats -----

  datatype Holder = Free | Owner(x: nat) | Sweep | Destroyer

  /** completePendingLink(), run by whoever just took the mutex. */
  datatype DrainPc = NotDraining | SwapPending | InsertNext | FlagNext

  datatype Visit = NoVisit | Visit(x: nat, taken: bool)

  /** A TLStatLink with the container it points to. */
  datatype Link = Link(
    holder: Holder,        // mutex_
    alive: bool,           // container_ != nullptr
    stats: set<nat>,       // tlStats_
    pending: seq<nat>,     // linkPending_
    pendingLock: int,      // the stat inside linkPending_'s lock, or NOBODY
    drain: seq<nat>,       // completePendingLink()'s local vector
    drainPc: DrainPc,
    empty: bool,           // tlStatsEmpty_
    visited: set<nat>,     // aggregate()'s loop
    visit: Visit,
    refs: int,             // refCount_
    owned: bool,           // the container's own TLStatLinkPtr is still there
    freed: bool)

  const NOBODY := -1

  datatype Pc =
    | Idle
    | TryLock                              // link()
    | PushPending | PushFlag | SetLinkedFree
    | LinkDrain | Insert | InsertFlag | SetLinkedHeld
    | ResetValue | Take | Deposit          // unlink(): the final aggregate()
    | WaitLock | UnlinkDrain | Erase | EraseFlag | SetUnlinked

  /** A stat.  `history` is what it was given since it got its global stat. */
  datatype Stat = Stat(
    live: bool, link: nat, linked: bool, pc: Pc,
    ledger: nat, history: seq<Update>, drained: nat,
    began: nat, mine: Amount,              // the owner's aggregate() in progress
    sweepBegan: nat, swept: Amount)        // a sweep's aggregate() in progress

  datatype State = State(links: seq<Link>, stats: seq<Stat>, ledgers: seq<Ledger>, failed: bool)

  const FRESH := Link(Free, true, {}, [], NOBODY, [], NotDraining, true, {}, NoVisit, 1, true, false)

  function NewStat(link: nat, ledger: nat): Stat {
    Stat(true, link, false, Idle, ledger, [], 0, 0, NOTHING, 0, NOTHING)
  }

  const INIT := State([], [], [], false)

  predicate Deferring(pc: Pc) {
    pc in {TryLock, PushPending, PushFlag, SetLinkedFree}
  }

  predicate Linking(pc: Pc) {
    Deferring(pc) || pc in {LinkDrain, Insert, InsertFlag, SetLinkedHeld}
  }

  predicate HoldsLock(pc: Pc) {
    pc in {LinkDrain, Insert, InsertFlag, SetLinkedHeld, UnlinkDrain, Erase, EraseFlag, SetUnlinked}
  }

  // ----- steps -----

  datatype Action =
    | NewLedger(kind: Kind)
    | NewContainer
    | Construct(l: nat, g: nat)            // TLStatT(container, name)
    | MoveConstruct(x: nat)                // a new stat, linked from x's link
    | MoveAssign(x: nat, y: nat)           // replaceFromOther and the swap of contents
    | DestroyStat(x: nat)
    | AddValue(x: nat, u: Update)
    | BeginLink(x: nat)
    | BeginUnlink(x: nat)
    | OwnerStep(x: nat, fails: bool)       // fails: try_lock() may fail for any reason
    | OwnerTake(x: nat, to: nat)
    | SweepLock(l: nat)
    | SweepVisit(l: nat, x: nat)
    | SweepTake(l: nat, to: nat)
    | SweepDeposit(l: nat)
    | SweepUnlock(l: nat)
    | DrainStep(l: nat)
    | DestroyLock(l: nat)
    | DestroyBody(l: nat)
    | ReleaseContainer(l: nat)             // the container's own TLStatLinkPtr goes

  function PutLink(s: State, l: nat, lk: Link): State
    requires l < |s.links|
  {
    s.(links := s.links[l := lk])
  }

  function PutStat(s: State, x: nat, st: Stat): State
    requires x < |s.stats|
  {
    s.(stats := s.stats[x := st])
  }

  predicate StatAt(s: State, x: nat) {
    x < |s.stats| && s.stats[x].live && s.stats[x].link < |s.links| && s.stats[x].ledger < |s.ledgers|
  }

  predicate Resting(s: State, x: nat) {
    StatAt(s, x) && s.stats[x].pc == Idle && !s.stats[x].linked
  }

  /** One step; an action that is not enabled changes nothing. */
  function Next(s: State, a: Action): State {
    match a
    case NewLedger(kind) => s.(ledgers := s.ledgers + [Ledger(kind, NOTHING, NOTHING, NOTHING)])
    case NewContainer => s.(links := s.links + [FRESH])
    case Construct(l, g) =>
      if l < |s.links| && s.links[l].alive && s.links[l].holder != Destroyer && g < |s.ledgers|
      then IncRef(s.(stats := s.stats + [NewStat(l, g)]), l) else s
    case MoveConstruct(x) =>
      if StatAt(s, x)
      then IncRef(s.(stats := s.stats + [NewStat(s.stats[x].link, s.stats[x].ledger)]), s.stats[x].link) else s
    case MoveAssign(x, y) =>
      if x != y && Resting(s, x) && Resting(s, y)
         && s.ledgers[s.stats[x].ledger].kind == s.ledgers[s.stats[y].ledger].kind
      then Replace(s, x, y) else s
    case DestroyStat(x) =>
      if Resting(s, x) then DecRef(PutStat(s, x, s.stats[x].(live := false)), s.stats[x].link) else s
    case AddValue(x, u) =>
      if StatAt(s, x) && s.stats[x].pc == Idle && s.stats[x].linked && Typed(TWO64, u)
      then Give(s, x, u) else s
    case BeginLink(x) =>
      if StatAt(s, x) && s.stats[x].pc == Idle && s.links[s.stats[x].link].holder != Destroyer && !s.stats[x].linked
      then PutStat(s, x, s.stats[x].(pc := TryLock)) else s
    case BeginUnlink(x) =>
      if StatAt(s, x) && s.stats[x].pc == Idle && s.stats[x].linked
      then PutStat(s, x, s.stats[x].(pc := ResetValue)) else s
    case OwnerStep(x, fails) =>
      if StatAt(s, x) && s.stats[x].pc != Idle then NextOwner(s, x, fails) else s
    case OwnerTake(x, to) =>
      if StatAt(s, x) && s.stats[x].pc == Take && TakesTo(s.stats[x], s.stats[x].began, to)
      then TakeWindow(s, x, to, PassedNow(s, x, to), s.stats[x].swept, Deposit) else s
    case SweepLock(l) =>
      if l < |s.links| && s.links[l].holder == Free && s.links[l].alive
      then PutLink(s, l, s.links[l].(holder := Sweep, drainPc := SwapPending, visited := {})) else s
    case SweepVisit(l, x) =>
      if Sweeping(s, l) && s.links[l].visit == NoVisit && x in s.links[l].stats - s.links[l].visited && x < |s.stats|
      then PutStat(PutLink(s, l, s.links[l].(visit := Visit(x, false), visited := s.links[l].visited + {x})),
                   x, s.stats[x].(sweepBegan := |s.stats[x].history|)) else s
    case SweepTake(l, to) =>
      if Sweeping(s, l) && s.links[l].visit.Visit? && !s.links[l].visit.taken && StatAt(s, s.links[l].visit.x)
         && TakesTo(s.stats[s.links[l].visit.x], s.stats[s.links[l].visit.x].sweepBegan, to)
      then
        var x := s.links[l].visit.x;
        TakeWindow(PutLink(s, l, s.links[l].(visit := Visit(x, true))),
                   x, to, s.stats[x].mine, PassedNow(s, x, to), s.stats[x].pc)
      else s
    case SweepDeposit(l) =>
      if Sweeping(s, l) && s.links[l].visit.Visit? && s.links[l].visit.taken && StatAt(s, s.links[l].visit.x)
      then
        var x := s.links[l].visit.x;
        PutLink(Pay(PutStat(s, x, s.stats[x].(swept := NOTHING)), s.stats[x].ledger, s.stats[x].swept),
                l, s.links[l].(visit := NoVisit))
      else s
    case SweepUnlock(l) =>
      if Sweeping(s, l) && s.links[l].visit == NoVisit && s.links[l].stats <= s.links[l].visited
      then PutLink(s, l, s.links[l].(holder := Free)) else s
    case DrainStep(l) =>
      if l >= |s.links| then s
      else if DrainCheckFires(s.links[l]) then s.(failed := true)
      else PutLink(s, l, Drain(s.links[l]))
    case DestroyLock(l) =>
      if l < |s.links| && s.links[l].holder == Free && s.links[l].alive && NoneLinking(s, l)
      then PutLink(s, l, s.links[l].(holder := Destroyer, drainPc := SwapPending)) else s
    case DestroyBody(l) =>
      if l < |s.links| && s.links[l].holder == Destroyer && s.links[l].drainPc == NotDraining
      then PutLink(s, l, s.links[l].(holder := Free, alive := false, stats := {}, pending := [], empty := true)) else s
    case ReleaseContainer(l) =>
      if l < |s.links| && !s.links[l].alive && s.links[l].owned
      then DecRef(PutLink(s, l, s.links[l].(owned := false)), l) else s
  }

  predicate NoneLinking(s: State, l: nat) {
    forall x :: 0 <= x < |s.stats| && s.stats[x].link == l ==> !Linking(s.stats[x].pc)
  }

  predicate Sweeping(s: State, l: nat) {
    l < |s.links| && s.links[l].holder == Sweep && s.links[l].drainPc == NotDraining
  }

  // ----- references to a link -----

  function IncRef(s: State, l: nat): State {
    if l < |s.links| then PutLink(s, l, s.links[l].(refs := s.links[l].refs + 1)) else s
  }

  function DecRef(s: State, l: nat): State {
    if l < |s.links|
    then PutLink(s, l, s.links[l].(refs := s.links[l].refs - 1, freed := s.links[l].freed || s.links[l].refs == 1))
    else s
  }

  /** replaceFromOther() drops the old reference before it takes the new one. */
  function Replace(s: State, x: nat, y: nat): State
    requires StatAt(s, x) && StatAt(s, y)
  {
    var a, b := s.stats[x], s.stats[y];
    var s1 := DecRef(s, a.link);
    var s2 := IncRef(s1, b.link);
    PutStat(PutStat(s2, x, a.(link := b.link, ledger := b.ledger, history := [], drained := 0)),
            y, b.(ledger := a.ledger, history := [], drained := 0))
  }

  // ----- values -----

  function Give(s: State, x: nat, u: Update): State
    requires StatAt(s, x)
  {
    var st := s.stats[x];
    var g := s.ledgers[st.ledger];
    PutStat(s, x, st.(history := st.history + [u])).(
      ledgers := s.ledgers[st.ledger := g.(added := Plus(g.added, Exact(g.kind, [u])))])
  }

  /** A window that reset() may take: from the last one's end, to at least all that was complete at the start. */
  predicate TakesTo(st: Stat, began: nat, to: nat) {
    began <= to && st.drained <= to <= |st.history|
  }

  function PassedNow(s: State, x: nat, to: nat): Amount
    requires StatAt(s, x) && s.stats[x].drained <= to <= |s.stats[x].history|
  {
    Passed(s.ledgers[s.stats[x].ledger].kind, s.stats[x].history[s.stats[x].drained..to])
  }

  function TakeWindow(s: State, x: nat, to: nat, mine: Amount, swept: Amount, pc: Pc): State
    requires StatAt(s, x) && s.stats[x].drained <= to <= |s.stats[x].history|
  {
    var st := s.stats[x];
    var g := s.ledgers[st.ledger];
    var w := st.history[st.drained..to];
    PutStat(s, x, st.(drained := to, mine := mine, swept := swept, pc := pc)).(
      ledgers := s.ledgers[st.ledger := g.(lost := Plus(g.lost, Minus(Exact(g.kind, w), Passed(g.kind, w))))])
  }

  function Pay(s: State, g: nat, amount: Amount): State
    requires g < |s.ledgers|
  {
    s.(ledgers := s.ledgers[g := s.ledgers[g].(value := Plus(s.ledgers[g].value, amount))])
  }

  // ----- link(), unlink(), completePendingLink() -----

  /** A stat with the link it refers to: all that its owner's steps touch. */
  datatype Ends = Ends(st: Stat, lk: Link)

  function EndsOf(s: State, x: nat): Ends
    requires StatAt(s, x)
  {
    Ends(s.stats[x], s.links[s.stats[x].link])
  }

  function PutEnds(s: State, x: nat, e: Ends): State
    requires StatAt(s, x)
  {
    s.(stats := s.stats[x := e.st], links := s.links[s.stats[x].link := e.lk])
  }

  /** link() up to try_lock(), and the path that defers registration when that fails. */
  function Defer(e: Ends, x: nat, fails: bool): Ends {
    var st, lk := e.st, e.lk;
    match st.pc
    case TryLock =>
      if lk.holder != Free || fails then Ends(st.(pc := PushPending), lk)
      else Ends(st.(pc := LinkDrain), Locked(lk, Owner(x)))
    case PushPending =>
      if !lk.alive then Ends(st.(pc := SetLinkedFree), lk)
      else if lk.pendingLock != NOBODY then e
      else if lk.pending == [] then Ends(st.(pc := PushFlag), lk.(pending := [x], pendingLock := x))
      else Ends(st.(pc := SetLinkedFree), lk.(pending := lk.pending + [x]))
    case PushFlag => Ends(st.(pc := SetLinkedFree), lk.(empty := false, pendingLock := NOBODY))
    case SetLinkedFree => Ends(st.(linked := true, pc := Idle), lk)
    case _ => e
  }

  /** lock() completes pending registrations, unless the container is gone. */
  function Locked(lk: Link, holder: Holder): Link {
    lk.(holder := holder, drainPc := if lk.alive then SwapPending else NotDraining)
  }

  /** link() under the registry lock. */
  function Register(e: Ends, x: nat): Ends {
    var st, lk := e.st, e.lk;
    match st.pc
    case LinkDrain => if lk.drainPc == NotDraining then Ends(st.(pc := Insert), lk) else e
    case Insert =>
      if !lk.alive then Ends(st.(pc := SetLinkedHeld), lk)
      else Ends(st.(pc := if lk.stats == {} then InsertFlag else SetLinkedHeld), lk.(stats := lk.stats + {x}))
    case InsertFlag => Ends(st.(pc := SetLinkedHeld), lk.(empty := false))
    case SetLinkedHeld => Ends(st.(linked := true, pc := Idle), lk.(holder := Free))
    case _ => e
  }

  /** unlink() after its final aggregate(). */
  function Unregister(e: Ends, x: nat): Ends {
    var st, lk := e.st, e.lk;
    match st.pc
    case WaitLock => if lk.holder != Free then e else Ends(st.(pc := UnlinkDrain), Locked(lk, Owner(x)))
    case UnlinkDrain => if lk.drainPc == NotDraining then Ends(st.(pc := Erase), lk) else e
    case Erase =>
      if !lk.alive then Ends(st.(pc := SetUnlinked), lk)
      else Ends(st.(pc := if lk.stats == {x} then EraseFlag else SetUnlinked), lk.(stats := lk.stats - {x}))
    case EraseFlag => Ends(st.(pc := SetUnlinked), lk.(empty := true))
    case SetUnlinked => Ends(st.(linked := false, pc := Idle), lk.(holder := Free))
    case _ => e
  }

  /** The CHECKs of link() and unlink(). */
  predicate CheckFires(e: Ends, x: nat) {
    (e.st.pc == Insert && e.lk.alive && x in e.lk.stats) || (e.st.pc == Erase && e.lk.alive && x !in e.lk.stats)
  }

  function NextOwner(s: State, x: nat, fails: bool): State
    requires StatAt(s, x)
  {
    var st, e := s.stats[x], EndsOf(s, x);
    if CheckFires(e, x) then s.(failed := true)
    else if Deferring(st.pc) then PutEnds(s, x, Defer(e, x, fails))
    else if Linking(st.pc) then PutEnds(s, x, Register(e, x))
    else if st.pc == ResetValue then PutStat(s, x, st.(began := |st.history|, pc := Take))
    else if st.pc == Deposit then Pay(PutStat(s, x, st.(mine := NOTHING, pc := WaitLock)), st.ledger, st.mine)
    else if st.pc == Take then s  // OwnerTake
    else PutEnds(s, x, Unregister(e, x))
  }

  /** completePendingLink(), with its CHECK. */
  function Drain(lk: Link): Link {
    match lk.drainPc
    case NotDraining => lk
    case SwapPending =>
      if lk.pendingLock != NOBODY then lk
      else lk.(drain := lk.pending, pending := [], drainPc := InsertNext)
    case InsertNext =>
      if lk.drain == [] then lk.(drainPc := NotDraining)
      else lk.(stats := lk.stats + {lk.drain[0]}, drain := lk.drain[1..],
               drainPc := if lk.stats == {} then FlagNext else InsertNext)
    case FlagNext => lk.(empty := false, drainPc := InsertNext)
  }

  predicate DrainCheckFires(lk: Link) {
    lk.drainPc == InsertNext && lk.drain != [] && lk.drain[0] in lk.stats
  }

  function Run(acts: seq<Action>): State {
    if acts == [] then INIT else Next(Run(acts[..|acts| - 1]), acts[|acts| - 1])
  }
}
