/**
  The thread-safe time series as a step machine: one adder inside addValue() and any
  number of threads inside reset(), interleaved one atomic load, store or
  compare-and-swap at a time.  The history of completed updates and the log of returned
  windows are ghost state; no step reads them.
 */
module Seqlock {
  import opened Words
  import opened History

  // ----- shared words -----

  /**
    The atomics of one series.  The surplus block is allocated at most once; its words
    mean nothing while `block` is false.
   */
  datatype Memory = Memory(
    sum: Pair, seqNo: nat,
    lastSeq: nat, baseSum: Pair,
    block: bool, surplus: Pair, baseSurplus: Pair)

  // ----- addValue() -----

  datatype AdderPc =
    | Idle
    | LoadBlock | Allocate | StoreOdd
    | LoadSurplusLo | StoreSurplusLo | LoadSurplusHi | StoreSurplusHi
    | LoadSumLo | StoreSumLo | LoadSumHi | StoreSumHi
    | StoreEven

  /** Locals of addValue() and of the addRaw() it is in. */
  datatype Adder = Adder(pc: AdderPc, u: Update, seqNo: nat, useBlock: bool, before: nat, carry: int)

  // ----- reset() -----

  datatype DrainPc =
    | Out
    | CheckLast | CheckSeq                                 // reset(): the operand not yet loaded
    | LoadLast | Claim | LoadBaseLo | LoadBaseHi           // drain()
    | ReadSeq | ReadBlock | ReadSurplusLo | ReadSurplusHi  // readTotals()
    | ReadSumLo | ReadSumHi | Confirm
    | LoadSurplusBaseLo | LoadSurplusBaseHi                // drain()
    | StoreSurplusBaseLo | StoreSurplusBaseHi | StoreBaseLo | StoreBaseHi
    | Release

  /** Locals of reset(), drain() and readTotals(); `started` is ghost. */
  datatype Drainer = Drainer(
    pc: DrainPc, seen: nat, last: nat, base: Pair, before: nat, block: bool,
    surplus: Pair, sum: Pair, baseSurplus: Pair, started: nat)

  /** What one reset() returned, the updates it covers, and how many were complete when it read seq_. */
  datatype Return = Return(count: int, sum: int, from: nat, to: nat, started: nat)

  datatype State = State(
    W: int, mem: Memory, adder: Adder, drainers: seq<Drainer>,
    holder: int, h: seq<Update>, log: seq<Return>)

  const NO_UPDATE := Update(0, 1)
  const NOBODY := -1
  const OUTSIDE := Drainer(Out, 0, 0, ZERO, 0, false, ZERO, ZERO, ZERO, 0)

  function Init(W: int, n: nat): State {
    State(W, Memory(ZERO, 0, 0, ZERO, false, ZERO, ZERO),
          Adder(Idle, NO_UPDATE, 0, false, 0, 0),
          seq(n, i => OUTSIDE), NOBODY, [], [])
  }

  /** Bit 0 of a sequence word marks it as in flight. */
  function Masked(seqNo: nat): nat { seqNo - seqNo % 2 }

  // ----- steps -----

  datatype Action =
    | AddValue(u: Update)
    | AdderStep
    | Reset(t: nat, lastFirst: bool)       // the comparison's operands may be loaded in either order
    | DrainerStep(t: nat, spurious: bool)  // spurious: a weak compare-and-swap may fail

  /** One step; an action that is not enabled changes nothing. */
  function Next(s: State, a: Action): State
    requires Width(s.W)
  {
    match a
    case AddValue(u) =>
      if s.adder.pc == Idle && Typed(s.W, u) && |s.h| + 1 < TWO63
      then s.(adder := Adder(if u.count != 1 then LoadBlock else StoreOdd, u, s.mem.seqNo, false, 0, 0))
      else s
    case AdderStep => NextAdder(s)
    case Reset(t, lastFirst) =>
      if t >= |s.drainers| || s.drainers[t].pc != Out then s
      else if lastFirst then Put(s, t, OUTSIDE.(pc := CheckSeq, seen := s.mem.lastSeq))
      else Put(s, t, OUTSIDE.(pc := CheckLast, seen := s.mem.seqNo, started := |s.h|))
    case DrainerStep(t, spurious) =>
      if t >= |s.drainers| || s.drainers[t].pc == Out then s
      else if s.drainers[t].pc in {CheckLast, CheckSeq, LoadLast, Claim} then NextClaim(s, t, spurious)
      else if s.drainers[t].pc in {LoadBaseLo, LoadBaseHi, ReadSeq, ReadBlock, ReadSurplusLo, ReadSurplusHi,
                                   ReadSumLo, ReadSumHi, Confirm}
      then Put(s, t, NextRead(s.mem, s.drainers[t]))
      else NextPublish(s, t)
  }

  function Put(s: State, t: nat, d: Drainer): State
    requires t < |s.drainers|
  {
    s.(drainers := s.drainers[t := d])
  }

  function NextAdder(s: State): State
    requires Width(s.W)
  {
    var m, a := s.mem, s.adder;
    var excess, below := (a.u.count - 1) % s.W, a.u.count < 1;
    match a.pc
    case Idle => s
    case LoadBlock =>
      s.(adder := if m.block then a.(useBlock := true, pc := StoreOdd) else a.(pc := Allocate))
    case Allocate =>
      s.(mem := m.(block := true, surplus := ZERO, baseSurplus := ZERO), adder := a.(useBlock := true, pc := StoreOdd))
    case StoreOdd =>
      s.(mem := m.(seqNo := a.seqNo + 1), adder := a.(pc := if a.useBlock then LoadSurplusLo else LoadSumLo))
    case LoadSurplusLo =>
      s.(adder := a.(before := m.surplus.lo, pc := StoreSurplusLo))
    case StoreSurplusLo =>
      var after := LowSum(s.W, a.before, excess);
      s.(mem := m.(surplus := m.surplus.(lo := after)),
         adder := a.(pc := if Wraps(a.before, after, below) then LoadSurplusHi else LoadSumLo))
    case LoadSurplusHi =>
      s.(adder := a.(carry := m.surplus.hi, pc := StoreSurplusHi))
    case StoreSurplusHi =>
      s.(mem := m.(surplus := m.surplus.(hi := StepCarry(a.carry, below))), adder := a.(pc := LoadSumLo))
    case LoadSumLo =>
      s.(adder := a.(before := m.sum.lo, pc := StoreSumLo))
    case StoreSumLo =>
      var after := LowSum(s.W, a.before, a.u.value % s.W);
      s.(mem := m.(sum := m.sum.(lo := after)),
         adder := a.(pc := if Wraps(a.before, after, a.u.value < 0) then LoadSumHi else StoreEven))
    case LoadSumHi =>
      s.(adder := a.(carry := m.sum.hi, pc := StoreSumHi))
    case StoreSumHi =>
      s.(mem := m.(sum := m.sum.(hi := StepCarry(a.carry, a.u.value < 0))), adder := a.(pc := StoreEven))
    case StoreEven =>
      s.(mem := m.(seqNo := a.seqNo + 2), adder := a.(pc := Idle), h := s.h + [a.u])
  }

  /** reset()'s early return, and the loop that claims bit 0 of lastSeq_. */
  function NextClaim(s: State, t: nat, spurious: bool): State
    requires t < |s.drainers|
  {
    var m, d := s.mem, s.drainers[t];
    match d.pc
    case CheckLast =>
      if d.seen == Masked(m.lastSeq)
      then Put(s, t, OUTSIDE).(log := s.log + [Return(0, 0, m.lastSeq / 2, m.lastSeq / 2, d.started)])
      else Put(s, t, d.(pc := LoadLast))
    case CheckSeq =>
      if m.seqNo == Masked(d.seen)
      then Put(s, t, OUTSIDE).(log := s.log + [Return(0, 0, d.seen / 2, d.seen / 2, |s.h|)])
      else Put(s, t, d.(pc := LoadLast, started := |s.h|))
    case LoadLast => Put(s, t, d.(last := m.lastSeq, pc := Claim))
    case Claim =>
      if d.last % 2 == 1 then Put(s, t, d.(pc := LoadLast))
      else if m.lastSeq == d.last && !spurious
      then Put(s, t, d.(pc := LoadBaseLo)).(mem := m.(lastSeq := d.last + 1), holder := t)
      else Put(s, t, d.(last := m.lastSeq))
    case _ => s
  }

  /** The baseline loads and readTotals(): loads only, so just the drainer changes. */
  function NextRead(m: Memory, d: Drainer): Drainer {
    match d.pc
    case LoadBaseLo => d.(base := d.base.(lo := m.baseSum.lo), pc := LoadBaseHi)
    case LoadBaseHi => d.(base := d.base.(hi := m.baseSum.hi), pc := ReadSeq)
    case ReadSeq => if m.seqNo % 2 == 1 then d else d.(before := m.seqNo, pc := ReadBlock)
    case ReadBlock =>
      if m.block then d.(block := true, pc := ReadSurplusLo)
      else d.(block := false, surplus := ZERO, pc := ReadSumLo)
    case ReadSurplusLo => d.(surplus := d.surplus.(lo := m.surplus.lo), pc := ReadSurplusHi)
    case ReadSurplusHi => d.(surplus := d.surplus.(hi := m.surplus.hi), pc := ReadSumLo)
    case ReadSumLo => d.(sum := d.sum.(lo := m.sum.lo), pc := ReadSumHi)
    case ReadSumHi => d.(sum := d.sum.(hi := m.sum.hi), pc := Confirm)
    case Confirm =>
      if m.seqNo != d.before then d.(pc := ReadSeq)
      else if d.block then d.(pc := LoadSurplusBaseLo)
      else d.(baseSurplus := ZERO, pc := StoreBaseLo)
    case _ => d
  }

  /** The rest of drain(): baselines out, claim released, result returned. */
  function NextPublish(s: State, t: nat): State
    requires Width(s.W) && t < |s.drainers|
  {
    var m, d := s.mem, s.drainers[t];
    match d.pc
    case LoadSurplusBaseLo =>
      Put(s, t, d.(baseSurplus := d.baseSurplus.(lo := m.baseSurplus.lo), pc := LoadSurplusBaseHi))
    case LoadSurplusBaseHi =>
      Put(s, t, d.(baseSurplus := d.baseSurplus.(hi := m.baseSurplus.hi), pc := StoreSurplusBaseLo))
    case StoreSurplusBaseLo =>
      Put(s, t, d.(pc := StoreSurplusBaseHi)).(mem := m.(baseSurplus := m.baseSurplus.(lo := d.surplus.lo)))
    case StoreSurplusBaseHi =>
      Put(s, t, d.(pc := StoreBaseLo)).(mem := m.(baseSurplus := m.baseSurplus.(hi := d.surplus.hi)))
    case StoreBaseLo =>
      Put(s, t, d.(pc := StoreBaseHi)).(mem := m.(baseSum := m.baseSum.(lo := d.sum.lo)))
    case StoreBaseHi =>
      Put(s, t, d.(pc := Release)).(mem := m.(baseSum := m.baseSum.(hi := d.sum.hi)))
    case Release =>
      var calls := (d.before - d.last) % TWO64 / 2;
      Put(s, t, OUTSIDE).(
        mem := m.(lastSeq := d.before), holder := NOBODY,
        log := s.log + [Return(DrainedCount(s.W, d.surplus, d.baseSurplus, calls),
                               DrainedSum(s.W, d.sum, d.base),
                               d.last / 2, d.before / 2, d.started)])
    case _ => s
  }

  /** The state after a schedule of actions, from a fresh series and `n` idle drainers. */
  function Run(W: int, n: nat, acts: seq<Action>): (s: State)
    requires Width(W)
    ensures s.W == W
  {
    if acts == [] then Init(W, n) else Next(Run(W, n, acts[..|acts| - 1]), acts[|acts| - 1])
  }
}
