/**
  The invariant of the step machine of `Seqlock`, and the theorems about all its runs.
 */
module SeqlockProof {
  import opened Words
  import opened History
  import opened Seqlock

  // ----- the invariant -----

  /** The words of a field's exact total over the first `n` updates. */
  function At(s: State, f: Field, n: nat): Pair
    requires Width(s.W) && n <= |s.h|
  {
    Repr(s.W, Total(f, s.h[..n]))
  }

  /** The words of a field once the update in progress is complete. */
  function After(s: State, f: Field): Pair
    requires Width(s.W)
  {
    Repr(s.W, Total(f, s.h + [s.adder.u]))
  }

  predicate PlainUpTo(s: State, n: nat) {
    n <= |s.h| && forall i :: 0 <= i < n ==> s.h[i].count == 1
  }

  predicate BeforeOdd(pc: AdderPc) {
    pc in {Idle, LoadBlock, Allocate, StoreOdd}
  }

  predicate InSurplus(pc: AdderPc) {
    pc in {LoadSurplusLo, StoreSurplusLo, LoadSurplusHi, StoreSurplusHi}
  }

  /** The words of one field while addRaw is part-way through them. */
  predicate MidAdd(old': Pair, new': Pair, words: Pair, before: nat, carry: int, negative: bool,
                   stored: bool, loaded: bool)
  {
    if !stored then words == old' && (loaded ==> before == words.lo)
    else words == Pair(new'.lo, old'.hi) && new'.hi == StepCarry(old'.hi, negative) && (loaded ==> carry == words.hi)
  }

  predicate AdderInv(s: State)
    requires Width(s.W)
  {
    var m, a, n := s.mem, s.adder, |s.h|;
    && AllTyped(s.W, s.h) && n < TWO63
    && m.seqNo == (if BeforeOdd(a.pc) then 2 * n else 2 * n + 1)
    && (a.pc != Idle ==> Typed(s.W, a.u) && n + 1 < TWO63 && a.seqNo == 2 * n)
    && (a.pc in {LoadBlock, Allocate} ==> a.u.count != 1)
    && (!BeforeOdd(a.pc) || a.pc == StoreOdd ==> (a.useBlock <==> a.u.count != 1))
    && (a.useBlock && a.pc != Idle ==> m.block)
    && (a.pc == Allocate ==> !m.block)
    && (InSurplus(a.pc) ==> a.useBlock)
    && (!m.block ==> PlainUpTo(s, n) && m.surplus == ZERO && m.baseSurplus == ZERO)
    && (if BeforeOdd(a.pc) then m.surplus == At(s, Surplus, n) && m.sum == At(s, Value, n)
        else if InSurplus(a.pc) then
          && MidAdd(At(s, Surplus, n), After(s, Surplus), m.surplus, a.before, a.carry, a.u.count < 1,
                    a.pc in {LoadSurplusHi, StoreSurplusHi}, a.pc in {StoreSurplusLo, StoreSurplusHi})
          && m.sum == At(s, Value, n)
        else
          && m.surplus == After(s, Surplus)
          && if a.pc == StoreEven then m.sum == After(s, Value)
             else MidAdd(At(s, Value, n), After(s, Value), m.sum, a.before, a.carry, a.u.value < 0,
                         a.pc in {LoadSumHi, StoreSumHi}, a.pc in {StoreSumLo, StoreSumHi}))
  }

  /** How far a drainer is; the pcs from LoadBaseLo on hold the claim. */
  function Rank(pc: DrainPc): nat {
    match pc
    case Out => 0 case CheckLast => 1 case CheckSeq => 1 case LoadLast => 2 case Claim => 3
    case LoadBaseLo => 4 case LoadBaseHi => 5
    case ReadSeq => 6 case ReadBlock => 7 case ReadSurplusLo => 8 case ReadSurplusHi => 9
    case ReadSumLo => 10 case ReadSumHi => 11 case Confirm => 12
    case LoadSurplusBaseLo => 13 case LoadSurplusBaseHi => 14
    case StoreSurplusBaseLo => 15 case StoreSurplusBaseHi => 16
    case StoreBaseLo => 17 case StoreBaseHi => 18
    case Release => 19
  }

  predicate Holds(pc: DrainPc) {
    Rank(pc) >= 4
  }

  /** What a drainer has read is exact for the sequence it started from, if that is still current. */
  predicate ReadSoFar(s: State, d: Drainer)
    requires Width(s.W) && d.before / 2 <= |s.h|
  {
    var r, n := Rank(d.pc), d.before / 2;
    && (r >= 8 && !d.block ==> d.surplus == ZERO && PlainUpTo(s, n))
    && (r >= 8 && d.block ==> s.mem.block)
    && (r in {8, 9} ==> d.block)
    && (s.mem.seqNo == d.before || r >= 13 ==>
          && (d.block && r >= 9 ==> d.surplus.lo == At(s, Surplus, n).lo)
          && (d.block && r >= 10 ==> d.surplus.hi == At(s, Surplus, n).hi)
          && (r >= 11 ==> d.sum.lo == At(s, Value, n).lo)
          && (r >= 12 ==> d.sum.hi == At(s, Value, n).hi))
  }

  predicate DrainerInv(s: State, d: Drainer)
    requires Width(s.W)
  {
    var r := Rank(d.pc);
    && d.started <= |s.h|
    && (d.pc == CheckLast ==> d.seen / 2 == d.started)
    && (d.pc == CheckSeq ==> d.seen / 2 <= Mark(s))
    && (r >= 7 ==>
          && d.before % 2 == 0 && d.before <= s.mem.seqNo && d.before / 2 <= |s.h|
          && d.started <= d.before / 2 && (Holds(d.pc) ==> d.last <= d.before)
          && ReadSoFar(s, d))
  }

  function Mark(s: State): nat { s.mem.lastSeq / 2 }

  /** The baselines, and what the holder of the claim has read of them. */
  predicate BaselineInv(s: State)
    requires Width(s.W) && Mark(s) <= |s.h| && -1 <= s.holder < |s.drainers|
  {
    var m, n := s.mem, Mark(s);
    if s.holder == NOBODY then
      m.baseSum == At(s, Value, n) && m.baseSurplus == At(s, Surplus, n)
    else
      var d := s.drainers[s.holder];
      var r := Rank(d.pc);
      && d.last == 2 * n
      && (r >= 5 ==> d.base.lo == At(s, Value, n).lo) && (r >= 6 ==> d.base.hi == At(s, Value, n).hi)
      && (r == 14 || (r >= 14 && d.block) ==> d.baseSurplus.lo == At(s, Surplus, n).lo)
      && (r >= 15 && d.block ==> d.baseSurplus.hi == At(s, Surplus, n).hi)
      && (r in {13, 14, 15, 16} ==> d.block)
      && (r >= 17 && !d.block ==> d.baseSurplus == ZERO)
      && (r <= 17 ==> m.baseSum == At(s, Value, n))
      && (r >= 18 ==> m.baseSum.lo == d.sum.lo) && (r >= 19 ==> m.baseSum.hi == d.sum.hi)
      && (r <= 15 || !d.block ==> m.baseSurplus == At(s, Surplus, n))
      && (r >= 16 && d.block ==> m.baseSurplus.lo == d.surplus.lo)
      && (r >= 17 && d.block ==> m.baseSurplus.hi == d.surplus.hi)
  }

  /** At most one drainer holds the claim, and bit 0 of lastSeq_ says whether one does. */
  predicate ClaimInv(s: State) {
    && -1 <= s.holder < |s.drainers|
    && (s.mem.lastSeq % 2 == 1 <==> s.holder != NOBODY)
    && (forall t :: 0 <= t < |s.drainers| ==> (Holds(s.drainers[t].pc) <==> t == s.holder))
    && 2 * Mark(s) <= s.mem.seqNo && Mark(s) <= |s.h|
  }

  /** A returned pair is the exact total of its window, clamped once. */
  predicate ReturnExact(s: State, r: Return) {
    && r.from <= r.to <= |s.h| && r.started <= r.to
    && r.count == ClampInt(s.W, Total(Count, s.h[r.from..r.to]))
    && r.sum == ClampInt(s.W, Total(Value, s.h[r.from..r.to]))
  }

  /** The windows follow one another without gap or overlap, up to the last sequence drained. */
  predicate Consecutive(log: seq<Return>, end: nat) {
    && (forall i :: 0 < i < |log| ==> log[i].from == log[i - 1].to)
    && (if log == [] then end == 0 else log[0].from == 0 && log[|log| - 1].to == end)
  }

  predicate LogInv(s: State) {
    && (forall i :: 0 <= i < |s.log| ==> ReturnExact(s, s.log[i]))
    && Consecutive(s.log, Mark(s))
  }

  predicate DrainersInv(s: State)
    requires Width(s.W)
  {
    forall t :: 0 <= t < |s.drainers| ==> DrainerInv(s, s.drainers[t])
  }

  predicate Inv(s: State) {
    && Width(s.W) && AdderInv(s) && ClaimInv(s) && BaselineInv(s) && DrainersInv(s) && LogInv(s)
  }

  // ----- the adder's steps -----

  /** What any step leaves true of what a drainer has read: words of the past do not change. */
  predicate Grows(s: State, s': State) {
    && s'.W == s.W && s.h <= s'.h && s.mem.seqNo <= s'.mem.seqNo
    && (s.mem.block ==> s'.mem.block) && Mark(s) <= Mark(s')
  }

  lemma AtStable(s: State, s': State, f: Field, n: nat)
    requires Width(s.W) && Grows(s, s') && n <= |s.h|
    ensures At(s', f, n) == At(s, f, n)
  {
    assert s'.h[..n] == s.h[..n];
  }

  lemma DrainerStable(s: State, s': State, d: Drainer)
    requires Width(s.W) && Grows(s, s') && DrainerInv(s, d)
    ensures DrainerInv(s', d)
  {
    if Rank(d.pc) >= 7 {
      AtStable(s, s', Value, d.before / 2);
      AtStable(s, s', Surplus, d.before / 2);
    }
  }

  lemma LogStable(s: State, s': State)
    requires Width(s.W) && Grows(s, s') && LogInv(s) && s'.log == s.log && Mark(s') == Mark(s)
    ensures LogInv(s')
  {
    forall i | 0 <= i < |s'.log| ensures ReturnExact(s', s'.log[i]) {
      var r := s.log[i];
      assert ReturnExact(s, r);
      assert s'.h[r.from..r.to] == s.h[r.from..r.to];
    }
  }

  lemma AdderKeepsOthers(s: State, s': State)
    requires Inv(s) && Grows(s, s') && s'.drainers == s.drainers && s'.holder == s.holder && s'.log == s.log
    requires s'.mem.lastSeq == s.mem.lastSeq && s'.mem.baseSum == s.mem.baseSum
    requires s'.mem.baseSurplus == s.mem.baseSurplus
    ensures ClaimInv(s') && BaselineInv(s') && DrainersInv(s') && LogInv(s')
  {
    AtStable(s, s', Value, Mark(s));
    AtStable(s, s', Surplus, Mark(s));
    forall t | 0 <= t < |s'.drainers| ensures DrainerInv(s', s'.drainers[t]) {
      DrainerStable(s, s', s.drainers[t]);
    }
    LogStable(s, s');
  }

  lemma EarlyStepWords(s: State)
    requires Inv(s) && s.adder.pc in {Idle, LoadBlock, Allocate, StoreOdd}
    ensures AdderInv(NextAdder(s))
  {
    hide Repr, Total;
    var a := s.adder;
    assert s.h[..|s.h|] == s.h;
    TotalAppend(Surplus, s.h, a.u);
  }

  /** No store of the adder needs more than the exactness of addRaw on the word it stores. */
  lemma SurplusStepWords(s: State)
    requires Inv(s) && InSurplus(s.adder.pc)
    ensures AdderInv(NextAdder(s))
  {
    hide Repr, Total;
    assert s.h[..|s.h|] == s.h;
    UpdateExact(s.W, Surplus, s.h, s.adder.u);
  }

  lemma SumStepWords(s: State)
    requires Inv(s) && s.adder.pc in {LoadSumLo, StoreSumLo, LoadSumHi, StoreSumHi}
    ensures AdderInv(NextAdder(s))
  {
    hide Repr, Total;
    assert s.h[..|s.h|] == s.h;
    UpdateExact(s.W, Value, s.h, s.adder.u);
  }

  lemma AdderStepCompletes(s: State)
    requires Inv(s) && s.adder.pc == StoreEven
    ensures AdderInv(NextAdder(s))
  {
    var s' := NextAdder(s);
    assert s'.h[..|s'.h|] == s'.h;
    TotalAppend(Surplus, s.h, s.adder.u);
  }

  lemma AdderFrame(s: State)
    requires Inv(s)
    ensures var s' := NextAdder(s);
      && Grows(s, s') && s'.drainers == s.drainers && s'.holder == s.holder && s'.log == s.log
      && s'.mem.lastSeq == s.mem.lastSeq && s'.mem.baseSum == s.mem.baseSum
      && s'.mem.baseSurplus == s.mem.baseSurplus
  {
    hide Repr, Total, BaselineInv, DrainersInv, LogInv, ClaimInv;
  }

  lemma AdderPreserves(s: State)
    requires Inv(s)
    ensures Inv(NextAdder(s))
  {
    hide Repr, Total, AdderInv, BaselineInv, DrainersInv, LogInv, ClaimInv, NextAdder;
    if s.adder.pc == StoreEven {
      AdderStepCompletes(s);
    } else if BeforeOdd(s.adder.pc) {
      EarlyStepWords(s);
    } else if InSurplus(s.adder.pc) {
      SurplusStepWords(s);
    } else {
      SumStepWords(s);
    }
    AdderFrame(s);
    AdderKeepsOthers(s, NextAdder(s));
  }

  lemma AddPreserves(s: State, u: Update)
    requires Inv(s)
    ensures Inv(Next(s, AddValue(u)))
  {
    hide Repr, Total, BaselineInv, DrainersInv, LogInv, ClaimInv;
    AdderKeepsOthers(s, Next(s, AddValue(u)));
  }

  // ----- the drainers' steps -----

  lemma OthersStable(s: State, s': State, t: nat)
    requires Width(s.W) && Grows(s, s') && DrainersInv(s) && t < |s.drainers| == |s'.drainers|
    requires forall u :: 0 <= u < |s.drainers| && u != t ==> s'.drainers[u] == s.drainers[u]
    requires DrainerInv(s', s'.drainers[t])
    ensures DrainersInv(s')
  {
    forall u | 0 <= u < |s'.drainers| ensures DrainerInv(s', s'.drainers[u]) {
      if u != t {
        DrainerStable(s, s', s.drainers[u]);
      }
    }
  }

  /** The drainers never write what the adder owns. */
  lemma AdderUntouched(s: State, s': State)
    requires Width(s.W) && AdderInv(s) && s'.W == s.W && s'.h == s.h && s'.adder == s.adder
    requires s'.mem.sum == s.mem.sum && s'.mem.seqNo == s.mem.seqNo
    requires s'.mem.block == s.mem.block && s'.mem.surplus == s.mem.surplus
    requires s.mem.block || s'.mem.baseSurplus == s.mem.baseSurplus
    ensures AdderInv(s')
  {
    hide Repr, Total;
  }

  lemma BeginPreserves(s: State, t: nat, lastFirst: bool)
    requires Inv(s) && t < |s.drainers| && s.drainers[t].pc == Out
    ensures Inv(Next(s, Reset(t, lastFirst)))
  {
    hide Repr, Total, LogInv;
    var s' := Next(s, Reset(t, lastFirst));
    OthersStable(s, s', t);
    LogStable(s, s');
  }

  lemma EmptyWindow(W: int, h: seq<Update>, n: nat)
    requires Width(W) && n <= |h|
    ensures forall f :: ClampInt(W, Total(f, h[n..n])) == 0
  {
    assert h[n..n] == [];
  }

  lemma EarlyBaselines(s: State, t: nat, spurious: bool)
    requires Inv(s) && t < |s.drainers| && s.drainers[t].pc in {CheckLast, CheckSeq, LoadLast}
    ensures ClaimInv(NextClaim(s, t, spurious)) && BaselineInv(NextClaim(s, t, spurious))
  {
    hide Repr, Total, DrainerInv, LogInv, AdderInv;
  }

  lemma CompareAndSwapBaselines(s: State, t: nat, spurious: bool)
    requires Inv(s) && t < |s.drainers| && s.drainers[t].pc == Claim
    ensures ClaimInv(NextClaim(s, t, spurious)) && BaselineInv(NextClaim(s, t, spurious))
  {
    hide Repr, Total, DrainerInv, LogInv, AdderInv;
  }

  lemma ClaimBaselines(s: State, t: nat, spurious: bool)
    requires Inv(s) && t < |s.drainers| && s.drainers[t].pc in {CheckLast, CheckSeq, LoadLast, Claim}
    ensures ClaimInv(NextClaim(s, t, spurious)) && BaselineInv(NextClaim(s, t, spurious))
    ensures Mark(NextClaim(s, t, spurious)) == Mark(s)
  {
    hide Inv, ClaimInv, BaselineInv;
    if s.drainers[t].pc == Claim {
      CompareAndSwapBaselines(s, t, spurious);
    } else {
      EarlyBaselines(s, t, spurious);
    }
  }

  predicate ReturnsEarly(s: State, d: Drainer) {
    (d.pc == CheckLast && d.seen == Masked(s.mem.lastSeq)) || (d.pc == CheckSeq && s.mem.seqNo == Masked(d.seen))
  }

  /** The early return covers an empty window at the end of what has been drained. */
  lemma EarlyReturn(s: State, t: nat, spurious: bool) returns (started: nat)
    requires Inv(s) && t < |s.drainers| && ReturnsEarly(s, s.drainers[t])
    ensures started <= Mark(s) <= |s.h|
    ensures NextClaim(s, t, spurious).log == s.log + [Return(0, 0, Mark(s), Mark(s), started)]
  {
    hide Repr, Total, BaselineInv, AdderInv, LogInv, ReadSoFar;
    assert DrainerInv(s, s.drainers[t]);
    CompleteUpdates(s);
    started := if s.drainers[t].pc == CheckLast then s.drainers[t].started else |s.h|;
  }

  lemma EmptyReturnLog(s: State, s': State, started: nat)
    requires Width(s.W) && LogInv(s) && s'.W == s.W && s'.h == s.h && Mark(s') == Mark(s) && started <= Mark(s) <= |s.h|
    requires s'.log == s.log + [Return(0, 0, Mark(s), Mark(s), started)]
    ensures LogInv(s')
  {
    hide Total, ClampInt;
    forall i | 0 <= i < |s.log| ensures ReturnExact(s', s'.log[i]) {
      assert ReturnExact(s, s.log[i]);
    }
    EmptyWindow(s.W, s.h, Mark(s));
  }

  lemma ClaimFrame(s: State, t: nat, spurious: bool)
    requires t < |s.drainers|
    ensures var s' := NextClaim(s, t, spurious);
      && s'.W == s.W && s'.h == s.h && s'.mem.seqNo == s.mem.seqNo && s'.mem.block == s.mem.block
      && (!ReturnsEarly(s, s.drainers[t]) ==> s'.log == s.log)
  {}

  lemma ClaimLog(s: State, t: nat, spurious: bool)
    requires Inv(s) && t < |s.drainers| && s.drainers[t].pc in {CheckLast, CheckSeq, LoadLast, Claim}
    ensures LogInv(NextClaim(s, t, spurious))
  {
    hide Repr, Total, BaselineInv, AdderInv, DrainersInv, LogInv, NextClaim, ReturnsEarly;
    var s' := NextClaim(s, t, spurious);
    ClaimFrame(s, t, spurious);
    ClaimBaselines(s, t, spurious);
    if ReturnsEarly(s, s.drainers[t]) {
      var started := EarlyReturn(s, t, spurious);
      EmptyReturnLog(s, s', started);
    } else {
      LogStable(s, s');
    }
  }

  /** The sequence, in flight or not, counts the complete updates. */
  lemma CompleteUpdates(s: State)
    requires Width(s.W) && AdderInv(s)
    ensures s.mem.seqNo / 2 == |s.h|
  {
    hide Repr, Total;
  }

  lemma ClaimPreserves(s: State, t: nat, spurious: bool)
    requires Inv(s) && t < |s.drainers| && s.drainers[t].pc in {CheckLast, CheckSeq, LoadLast, Claim}
    ensures Inv(NextClaim(s, t, spurious))
  {
    hide Repr, Total, BaselineInv, LogInv, AdderInv;
    var s' := NextClaim(s, t, spurious);
    AdderUntouched(s, s');
    ClaimBaselines(s, t, spurious);
    assert DrainerInv(s, s.drainers[t]);
    OthersStable(s, s', t);
    ClaimLog(s, t, spurious);
  }

  lemma StartsToRead(s: State, t: nat)
    requires Inv(s) && t < |s.drainers| && 4 <= Rank(s.drainers[t].pc) <= 6
    ensures DrainerInv(Put(s, t, NextRead(s.mem, s.drainers[t])), NextRead(s.mem, s.drainers[t]))
  {
    hide Repr, Total, LogInv, BaselineInv;
    var d := s.drainers[t];
    assert DrainerInv(s, d);
    assert s.h[..|s.h|] == s.h;
    HolderClaimed(s, t);
  }

  lemma ReadsSurplus(s: State, t: nat)
    requires Inv(s) && t < |s.drainers| && 7 <= Rank(s.drainers[t].pc) <= 9
    ensures DrainerInv(Put(s, t, NextRead(s.mem, s.drainers[t])), NextRead(s.mem, s.drainers[t]))
  {
    hide Repr, Total, LogInv, BaselineInv;
    var d := s.drainers[t];
    assert DrainerInv(s, d);
    assert s.h[..|s.h|] == s.h;
    HolderClaimed(s, t);
  }

  lemma ReadsSum(s: State, t: nat)
    requires Inv(s) && t < |s.drainers| && 10 <= Rank(s.drainers[t].pc) <= 12
    ensures DrainerInv(Put(s, t, NextRead(s.mem, s.drainers[t])), NextRead(s.mem, s.drainers[t]))
  {
    hide Repr, Total, LogInv, BaselineInv;
    var d := s.drainers[t];
    assert DrainerInv(s, d);
    assert s.h[..|s.h|] == s.h;
    HolderClaimed(s, t);
  }

  lemma ReadKeepsDrainer(s: State, t: nat)
    requires Inv(s) && t < |s.drainers| && 4 <= Rank(s.drainers[t].pc) <= 12
    ensures DrainerInv(Put(s, t, NextRead(s.mem, s.drainers[t])), NextRead(s.mem, s.drainers[t]))
  {
    hide Inv, DrainerInv, NextRead;
    if Rank(s.drainers[t].pc) <= 6 {
      StartsToRead(s, t);
    } else if Rank(s.drainers[t].pc) <= 9 {
      ReadsSurplus(s, t);
    } else {
      ReadsSum(s, t);
    }
  }

  lemma ReadBaselines(s: State, t: nat)
    requires Inv(s) && t < |s.drainers| && 4 <= Rank(s.drainers[t].pc) <= 12
    ensures ClaimInv(Put(s, t, NextRead(s.mem, s.drainers[t])))
    ensures BaselineInv(Put(s, t, NextRead(s.mem, s.drainers[t])))
  {
    hide Repr, Total, DrainerInv, LogInv, AdderInv;
    assert t == s.holder;
  }

  lemma ReadPreserves(s: State, t: nat)
    requires Inv(s) && t < |s.drainers| && 4 <= Rank(s.drainers[t].pc) <= 12
    ensures Inv(Put(s, t, NextRead(s.mem, s.drainers[t])))
  {
    hide Repr, Total, AdderInv, BaselineInv, DrainerInv, LogInv, NextRead;
    var s' := Put(s, t, NextRead(s.mem, s.drainers[t]));
    ReadKeepsDrainer(s, t);
    ReadBaselines(s, t);
    AdderUntouched(s, s');
    OthersStable(s, s', t);
    LogStable(s, s');
  }

  /** What a step of publishing writes: baselines, and nothing another thread reads. */
  lemma PublishFrame(s: State, t: nat)
    requires Inv(s) && t < |s.drainers| && 13 <= Rank(s.drainers[t].pc) <= 18
    ensures var s' := NextPublish(s, t);
      && s'.W == s.W && s'.h == s.h && s'.adder == s.adder && s'.log == s.log && |s'.drainers| == |s.drainers|
      && s'.mem.sum == s.mem.sum && s'.mem.seqNo == s.mem.seqNo && s'.mem.block == s.mem.block
      && s'.mem.surplus == s.mem.surplus && s'.mem.lastSeq == s.mem.lastSeq
      && (s.mem.block || s'.mem.baseSurplus == s.mem.baseSurplus)
      && forall u :: 0 <= u < |s.drainers| && u != t ==> s'.drainers[u] == s.drainers[u]
  {
    hide Repr, Total, LogInv, AdderInv;
    assert DrainerInv(s, s.drainers[t]);
    assert t == s.holder;
  }

  lemma LoadSurplusBaselines(s: State, t: nat)
    requires Inv(s) && t < |s.drainers| && 13 <= Rank(s.drainers[t].pc) <= 14
    ensures ClaimInv(NextPublish(s, t)) && BaselineInv(NextPublish(s, t))
  {
    hide Repr, Total, DrainerInv, DrainersInv, LogInv, AdderInv, DrainedSum, DrainedCount;
    assert t == s.holder;
  }

  lemma StoreSurplusBaselines(s: State, t: nat)
    requires Inv(s) && t < |s.drainers| && 15 <= Rank(s.drainers[t].pc) <= 16
    ensures ClaimInv(NextPublish(s, t)) && BaselineInv(NextPublish(s, t))
  {
    hide Repr, Total, DrainerInv, DrainersInv, LogInv, AdderInv, DrainedSum, DrainedCount;
    assert t == s.holder;
  }

  lemma StoreSumBaselines(s: State, t: nat)
    requires Inv(s) && t < |s.drainers| && 17 <= Rank(s.drainers[t].pc) <= 18
    ensures ClaimInv(NextPublish(s, t)) && BaselineInv(NextPublish(s, t))
  {
    hide Repr, Total, DrainerInv, DrainersInv, LogInv, AdderInv, DrainedSum, DrainedCount;
    assert t == s.holder;
  }

  lemma PublishBaselines(s: State, t: nat)
    requires Inv(s) && t < |s.drainers| && 13 <= Rank(s.drainers[t].pc) <= 18
    ensures ClaimInv(NextPublish(s, t)) && BaselineInv(NextPublish(s, t))
  {
    hide Inv, ClaimInv, BaselineInv, NextPublish;
    var r := Rank(s.drainers[t].pc);
    if r <= 14 {
      LoadSurplusBaselines(s, t);
    } else if r <= 16 {
      StoreSurplusBaselines(s, t);
    } else {
      StoreSumBaselines(s, t);
    }
  }

  lemma PublishKeepsDrainer(s: State, t: nat)
    requires Inv(s) && t < |s.drainers| && 13 <= Rank(s.drainers[t].pc) <= 18
    ensures DrainerInv(NextPublish(s, t), NextPublish(s, t).drainers[t])
  {
    hide Repr, Total, LogInv, AdderInv;
    assert DrainerInv(s, s.drainers[t]);
    assert t == s.holder;
  }

  lemma PublishPreserves(s: State, t: nat)
    requires Inv(s) && t < |s.drainers| && 13 <= Rank(s.drainers[t].pc) <= 18
    ensures Inv(NextPublish(s, t))
  {
    hide Repr, Total, AdderInv, BaselineInv, DrainerInv, LogInv, NextPublish;
    var s' := NextPublish(s, t);
    PublishFrame(s, t);
    PublishBaselines(s, t);
    PublishKeepsDrainer(s, t);
    AdderUntouched(s, s');
    OthersStable(s, s', t);
    LogStable(s, s');
  }

  /** Without a surplus block the exact surplus total is zero, up to the sequence read. */
  lemma NoBlockNoSurplus(s: State, n: nat)
    requires Width(s.W) && PlainUpTo(s, n)
    ensures forall k :: 0 <= k <= n ==> At(s, Surplus, k) == ZERO
  {
    forall k | 0 <= k <= n ensures At(s, Surplus, k) == ZERO {
      PlainUpdatesHaveNoSurplus(s.h[..k]);
      ReprUnique(s.W, 0, 0, 0);
    }
  }

  lemma ReleaseExact(s: State, t: nat)
    requires Inv(s) && t < |s.drainers| && s.drainers[t].pc == Release
    ensures var s' := NextPublish(s, t);
      ReturnExact(s', s'.log[|s.log|]) && s'.log[|s.log|].from == Mark(s) && s'.log[|s.log|].to == Mark(s')
  {
    hide Repr, Total, DrainedSum, DrainedCount, LogInv;
    var d := s.drainers[t];
    assert t == s.holder;
    assert DrainerInv(s, d);
    ModSmall(d.before - d.last);
    WindowExact(s.W, s.h, Mark(s), d.before / 2);
    if !d.block {
      NoBlockNoSurplus(s, d.before / 2);
    }
    assert d.sum == At(s, Value, d.before / 2) && d.base == At(s, Value, Mark(s));
    assert d.surplus == At(s, Surplus, d.before / 2);
    assert d.baseSurplus == At(s, Surplus, Mark(s));
  }

  lemma ReleasePreserves(s: State, t: nat)
    requires Inv(s) && t < |s.drainers| && s.drainers[t].pc == Release
    ensures Inv(NextPublish(s, t))
  {
    hide Repr, Total, DrainedSum, DrainedCount;
    var s' := NextPublish(s, t);
    var d := s.drainers[t];
    assert t == s.holder;
    assert DrainerInv(s, d);
    if !d.block {
      NoBlockNoSurplus(s, d.before / 2);
      assert At(s, Surplus, Mark(s)) == At(s, Surplus, d.before / 2);
    }
    OthersStable(s, s', t);
    ReleaseExact(s, t);
    forall i | 0 <= i < |s.log| ensures ReturnExact(s', s'.log[i]) {
      assert ReturnExact(s, s.log[i]);
    }
  }

  lemma StepPreserves(s: State, a: Action)
    requires Inv(s)
    ensures Inv(Next(s, a))
  {
    hide AdderInv, BaselineInv, DrainersInv, LogInv, ClaimInv, NextAdder, NextClaim, NextRead, NextPublish;
    match a
    case AddValue(u) => AddPreserves(s, u);
    case AdderStep => AdderPreserves(s);
    case Reset(t, lastFirst) =>
      if t < |s.drainers| && s.drainers[t].pc == Out {
        BeginPreserves(s, t, lastFirst);
      }
    case DrainerStep(t, spurious) =>
      if t < |s.drainers| && s.drainers[t].pc != Out {
        var r := Rank(s.drainers[t].pc);
        if r <= 3 {
          ClaimPreserves(s, t, spurious);
        } else if r <= 12 {
          ReadPreserves(s, t);
        } else if r <= 18 {
          PublishPreserves(s, t);
        } else {
          ReleasePreserves(s, t);
        }
      }
  }

  lemma {:induction false} RunInv(W: int, n: nat, acts: seq<Action>)
    requires Width(W)
    ensures Inv(Run(W, n, acts))
  {
    if acts == [] {
      ReprUnique(W, 0, 0, 0);
    } else {
      RunInv(W, n, acts[..|acts| - 1]);
      StepPreserves(Run(W, n, acts[..|acts| - 1]), acts[|acts| - 1]);
    }
  }

  // ----- what holds of every run -----

  /**
    A snapshot that readTotals() accepts for sequence `before` is the exact total of the
    values, and of count - 1, over the same first before/2 updates: the count and the sum
    a drain reports always describe the same updates.
   */
  lemma SnapshotExact(W: int, n: nat, acts: seq<Action>, t: nat)
    requires Width(W) && t < n
    ensures |Run(W, n, acts).drainers| == n
    ensures var s := Run(W, n, acts);
      var d := s.drainers[t];
      Rank(d.pc) >= 13 || (d.pc == Confirm && s.mem.seqNo == d.before) ==>
        && d.before % 2 == 0 && d.started <= d.before / 2 <= |s.h|
        && d.sum == Repr(W, Total(Value, s.h[..d.before / 2]))
        && d.surplus == Repr(W, Total(Surplus, s.h[..d.before / 2]))
  {
    hide NextClaim, NextRead, NextPublish, NextAdder, AdderInv, BaselineInv, LogInv;
    RunInv(W, n, acts);
    RunSize(W, n, acts);
    var s := Run(W, n, acts);
    var d := s.drainers[t];
    assert DrainerInv(s, d);
    if Rank(d.pc) >= 12 && !d.block {
      NoBlockNoSurplus(s, d.before / 2);
      assert At(s, Surplus, d.before / 2) == ZERO;
    }
  }

  lemma NextSize(s: State, a: Action)
    requires Width(s.W)
    ensures |Next(s, a).drainers| == |s.drainers|
  {
    hide AddRaw, LowSum, Wraps, StepCarry, DrainedSum, DrainedCount;
  }

  lemma {:induction false} RunSize(W: int, n: nat, acts: seq<Action>)
    requires Width(W)
    ensures |Run(W, n, acts).drainers| == n
  {
    hide Next;
    if acts != [] {
      RunSize(W, n, acts[..|acts| - 1]);
      NextSize(Run(W, n, acts[..|acts| - 1]), acts[|acts| - 1]);
    }
  }

  /** The sum of the windows' exact totals. */
  function Covered(f: Field, h: seq<Update>, log: seq<Return>): int
    requires forall i :: 0 <= i < |log| ==> log[i].from <= log[i].to <= |h|
  {
    if log == [] then 0
    else var r := log[|log| - 1]; Covered(f, h, log[..|log| - 1]) + Total(f, h[r.from..r.to])
  }

  lemma {:induction false} CoveredIsPrefix(f: Field, h: seq<Update>, log: seq<Return>, end: nat)
    requires forall i :: 0 <= i < |log| ==> log[i].from <= log[i].to <= |h|
    requires Consecutive(log, end) && end <= |h|
    ensures Covered(f, h, log) == Total(f, h[..end])
  {
    if log != [] {
      var r := log[|log| - 1];
      CoveredIsPrefix(f, h, log[..|log| - 1], r.from);
      TotalWindow(f, h, r.from, r.to);
    }
  }

  /** Every update drained so far is in exactly one window. */
  lemma {:induction false} WindowOf(log: seq<Return>, end: nat, k: nat) returns (i: nat)
    requires Consecutive(log, end) && k < end
    requires forall j :: 0 <= j < |log| ==> log[j].from <= log[j].to
    ensures i < |log| && log[i].from <= k < log[i].to
    ensures forall j :: 0 <= j < |log| && j != i ==> !(log[j].from <= k < log[j].to)
  {
    var r := log[|log| - 1];
    if r.from <= k {
      i := |log| - 1;
      EndsAscend(log, end);
    } else {
      i := WindowOf(log[..|log| - 1], r.from, k);
    }
  }

  lemma {:induction false} EndsAscend(log: seq<Return>, end: nat)
    requires Consecutive(log, end) && forall j :: 0 <= j < |log| ==> log[j].from <= log[j].to
    ensures forall j :: 0 <= j < |log| - 1 ==> log[j].to <= log[|log| - 1].from
  {
    if |log| > 1 {
      EndsAscend(log[..|log| - 1], log[|log| - 1].from);
    }
  }

  /**
    Over any run with any number of concurrent resets: each returned pair is the exact
    total of its window, clamped once; the windows are consecutive; and what they cover
    plus what is left undrained is everything that was added, field by field.
   */
  lemma WindowsPartitionHistory(W: int, n: nat, acts: seq<Action>)
    requires Width(W)
    ensures var s := Run(W, n, acts);
      && (forall i :: 0 <= i < |s.log| ==> ReturnExact(s, s.log[i]))
      && Consecutive(s.log, Mark(s)) && Mark(s) <= |s.h|
      && forall f :: Covered(f, s.h, s.log) + Total(f, s.h[Mark(s)..]) == Total(f, s.h)
  {
    hide AdderInv, BaselineInv, DrainersInv, Run, Covered, Total, Repr, ClampInt;
    RunInv(W, n, acts);
    var s := Run(W, n, acts);
    forall f ensures Covered(f, s.h, s.log) + Total(f, s.h[Mark(s)..]) == Total(f, s.h) {
      CoveredIsPrefix(f, s.h, s.log, Mark(s));
      TotalConcat(f, s.h[..Mark(s)], s.h[Mark(s)..]);
      assert s.h == s.h[..Mark(s)] + s.h[Mark(s)..];
    }
  }

  /**
    When a reset() returns, by the early exit or with a drained window, every update that
    was complete when it read seq_ is in exactly one returned window, its own or an
    earlier one.
   */
  lemma ResetIsABarrier(W: int, n: nat, acts: seq<Action>, r: nat, k: nat) returns (i: nat)
    requires Width(W) && r < |Run(W, n, acts).log| && k < Run(W, n, acts).log[r].started
    ensures var log := Run(W, n, acts).log;
      i <= r && log[i].from <= k < log[i].to
      && forall j :: 0 <= j < |log| && j != i ==> !(log[j].from <= k < log[j].to)
  {
    hide AdderInv, BaselineInv, DrainersInv, Next;
    RunInv(W, n, acts);
    var s := Run(W, n, acts);
    assert ReturnExact(s, s.log[r]);
    var log := s.log[..r + 1];
    assert Consecutive(log, s.log[r].to);
    forall j | 0 <= j < |s.log| ensures s.log[j].from <= s.log[j].to {
      assert ReturnExact(s, s.log[j]);
    }
    i := WindowOf(log, s.log[r].to, k);
    LaterWindowsAreLater(s.log, r, k);
  }

  lemma {:induction false} LaterWindowsAreLater(log: seq<Return>, r: nat, k: nat)
    requires r < |log| && k < log[r].to && forall j :: 0 <= j < |log| ==> log[j].from <= log[j].to
    requires forall j :: 0 < j < |log| ==> log[j].from == log[j - 1].to
    ensures forall j :: r < j < |log| ==> k < log[j].from
  {
    forall j | r < j < |log| ensures k < log[j].from {
      var m := r + 1;
      while m < j
        invariant r < m <= j && k < log[m].from
      {
        m := m + 1;
      }
    }
  }

  /**
    At most one drainer holds the claim; masked lastSeq_ never exceeds seq_; and while no
    drainer holds the claim the baselines are the exact totals at update lastSeq_/2.
   */
  lemma ClaimIsExclusive(W: int, n: nat, acts: seq<Action>)
    requires Width(W)
    ensures var s := Run(W, n, acts);
      && (forall t, u :: 0 <= t < u < |s.drainers| ==> !(Holds(s.drainers[t].pc) && Holds(s.drainers[u].pc)))
      && (s.mem.lastSeq % 2 == 1 <==> exists t :: 0 <= t < |s.drainers| && Holds(s.drainers[t].pc))
      && Masked(s.mem.lastSeq) <= s.mem.seqNo && Mark(s) <= |s.h|
      && (s.mem.lastSeq % 2 == 0 ==>
            && s.mem.baseSum == Repr(W, Total(Value, s.h[..Mark(s)]))
            && s.mem.baseSurplus == Repr(W, Total(Surplus, s.h[..Mark(s)])))
  {
    hide AdderInv, DrainersInv, LogInv, Next;
    RunInv(W, n, acts);
    var s := Run(W, n, acts);
    if s.holder != NOBODY {
      assert Holds(s.drainers[s.holder].pc);
    }
  }

  /** What no drainer's step takes back. */
  predicate NothingTakenBack(s: State, s': State) {
    && Masked(s.mem.lastSeq) <= Masked(s'.mem.lastSeq) && s'.mem.seqNo == s.mem.seqNo
    && s'.h == s.h && s.log <= s'.log
  }

  lemma ClaimIsMonotone(s: State, t: nat, spurious: bool)
    requires t < |s.drainers| && s.drainers[t].pc in {CheckLast, CheckSeq, LoadLast, Claim}
    ensures NothingTakenBack(s, NextClaim(s, t, spurious))
  {}

  lemma PublishIsMonotone(s: State, t: nat)
    requires Width(s.W) && DrainersInv(s) && t < |s.drainers| && Rank(s.drainers[t].pc) >= 13
    requires s.drainers[t].last == 2 * Mark(s) && s.mem.lastSeq == s.drainers[t].last + 1
    ensures NothingTakenBack(s, NextPublish(s, t))
  {
    hide ReadSoFar, DrainedSum, DrainedCount;
    assert DrainerInv(s, s.drainers[t]);
  }

  lemma HolderClaimed(s: State, t: nat)
    requires Inv(s) && t < |s.drainers| && Holds(s.drainers[t].pc)
    ensures s.drainers[t].last == 2 * Mark(s) && s.mem.lastSeq == s.drainers[t].last + 1
  {
    hide AdderInv, DrainersInv, LogInv, At;
    assert t == s.holder;
  }

  lemma DrainerIsMonotone(s: State, a: Action)
    requires Inv(s) && a.DrainerStep? && a.t < |s.drainers|
    ensures NothingTakenBack(s, Next(s, a))
  {
    hide Inv, NextClaim, NextRead, NextPublish;
    var r := Rank(s.drainers[a.t].pc);
    if 1 <= r <= 3 {
      ClaimIsMonotone(s, a.t, a.spurious);
    } else if r >= 13 {
      HolderClaimed(s, a.t);
      assert Width(s.W) && DrainersInv(s) by { InvParts(s); }
      PublishIsMonotone(s, a.t);
    }
  }

  lemma InvParts(s: State)
    requires Inv(s)
    ensures Width(s.W) && DrainersInv(s)
  {}

  lemma StepIsMonotone(s: State, a: Action)
    requires Inv(s)
    ensures var s' := Next(s, a);
      && Masked(s.mem.lastSeq) <= Masked(s'.mem.lastSeq) && s.mem.seqNo <= s'.mem.seqNo
      && s.h <= s'.h && s.log <= s'.log
  {
    hide LogInv, Repr, Total, NextAdder, NextClaim, NextRead, NextPublish;
    if a == AdderStep {
      AdderFrame(s);
    } else if a.DrainerStep? && a.t < |s.drainers| {
      DrainerIsMonotone(s, a);
    }
  }

  /** Across any step of a run, masked lastSeq_ and seq_ only grow and the history only extends. */
  lemma SequencesAreMonotone(W: int, n: nat, acts: seq<Action>, a: Action)
    requires Width(W)
    ensures var s, s' := Run(W, n, acts), Next(Run(W, n, acts), a);
      && Masked(s.mem.lastSeq) <= Masked(s'.mem.lastSeq) && s.mem.seqNo <= s'.mem.seqNo
      && s.h <= s'.h && s.log <= s'.log
  {
    RunInv(W, n, acts);
    StepIsMonotone(Run(W, n, acts), a);
  }

  lemma BaselineWriter(s: State, a: Action)
    requires Inv(s) && a.DrainerStep? && a.t < |s.drainers|
    ensures var m, m' := s.mem, Next(s, a).mem;
      m'.baseSum != m.baseSum || m'.baseSurplus != m.baseSurplus ==> a.t == s.holder && Holds(s.drainers[a.t].pc)
  {
    hide LogInv, AdderInv, DrainersInv, BaselineInv, Repr, Total, DrainedSum, DrainedCount, NextAdder;
  }

  /**
    No step of a run but one of the claim's holder changes a baseline; the block's, when it
    appears, are zero already.
   */
  lemma OnlyTheHolderWritesBaselines(W: int, n: nat, acts: seq<Action>, a: Action)
    requires Width(W)
    requires var s, s' := Run(W, n, acts), Next(Run(W, n, acts), a);
      s'.mem.baseSum != s.mem.baseSum || s'.mem.baseSurplus != s.mem.baseSurplus
    ensures a.DrainerStep? && a.t < |Run(W, n, acts).drainers| && a.t == Run(W, n, acts).holder
    ensures Holds(Run(W, n, acts).drainers[a.t].pc)
  {
    hide Run, Inv, NextAdder, NextClaim, NextRead, NextPublish;
    RunInv(W, n, acts);
    var s := Run(W, n, acts);
    if a == AdderStep {
      AdderFrame(s);
    } else if a.DrainerStep? && a.t < |s.drainers| {
      BaselineWriter(s, a);
    }
  }
}
