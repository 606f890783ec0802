/**
  The two time series classes, run by one thread: the non-locking one, which clamps on
  every add, and the thread-safe one, which keeps exact totals and clamps at reset().
  `Seqlock` has the thread-safe one under concurrency.
 */
module TimeSeries {
  import opened Words
  import opened History

  // ----- clamping on every add -----

  /** Adding and clamping, update by update, from a given start. */
  function Saturated(W: int, f: Field, start: int, h: seq<Update>): int {
    if h == [] then start
    else ClampInt(W, Saturated(W, f, start, h[..|h| - 1]) + Amount(f, h[|h| - 1]))
  }

  class NoLockingSeries {
    const W: int
    var count: int
    var sum: int
    ghost var window: seq<Update>

    ghost predicate Valid()
      reads this
    {
      && Width(W) && AllTyped(W, window)
      && count == Saturated(W, Count, 0, window) && sum == Saturated(W, Value, 0, window)
    }

    constructor (W: int)
      requires Width(W)
      ensures Valid() && this.W == W && window == []
    {
      this.W := W;
      count, sum := 0, 0;
      window := [];
    }

    method AddValue(u: Update)
      requires Valid() && Typed(W, u)
      modifies this
      ensures Valid() && window == old(window) + [u]
    {
      count := ClampInt(W, count + u.count);
      sum := ClampInt(W, sum + u.value);
      window := window + [u];
      assert window[..|window| - 1] == old(window);
    }

    method Reset() returns (c: int, s: int)
      requires Valid()
      modifies this
      ensures Valid() && window == []
      ensures c == Saturated(W, Count, 0, old(window)) && s == Saturated(W, Value, 0, old(window))
    {
      c, s := count, sum;
      count, sum := 0, 0;
      window := [];
    }
  }

  // ----- exact totals, clamped once -----

  class SurplusBlock {
    var total: Pair
    var base: Pair

    constructor ()
      ensures total == ZERO && base == ZERO
    {
      total, base := ZERO, ZERO;
    }
  }

  class ThreadSafeSeries {
    const W: int
    var sum: Pair
    var seqNo: nat
    var lastSeq: nat
    var baseSum: Pair
    var surplus: SurplusBlock?
    ghost var history: seq<Update>
    ghost var drained: nat

    ghost predicate Valid()
      reads this, surplus
    {
      && Width(W) && AllTyped(W, history) && drained <= |history| < TWO63
      && seqNo == 2 * |history| && lastSeq == 2 * drained
      && sum == Repr(W, Total(Value, history)) && baseSum == Repr(W, Total(Value, history[..drained]))
      && (surplus == null ==> forall i :: 0 <= i < |history| ==> history[i].count == 1)
      && (surplus != null ==>
            && surplus.total == Repr(W, Total(Surplus, history))
            && surplus.base == Repr(W, Total(Surplus, history[..drained])))
    }

    constructor (W: int)
      requires Width(W)
      ensures Valid() && this.W == W && history == [] && drained == 0
    {
      this.W := W;
      sum, baseSum, seqNo, lastSeq, surplus := ZERO, ZERO, 0, 0, null;
      history, drained := [], 0;
      new;
      ReprUnique(W, 0, 0, 0);
    }

    /** The block appears with the first count other than 1, zeroed, and is right from then on. */
    method AddValue(u: Update)
      requires Valid() && Typed(W, u) && |history| + 1 < TWO63
      modifies this, surplus
      ensures Valid() && history == old(history) + [u] && drained == old(drained)
      ensures surplus == old(surplus) || fresh(surplus)
    {
      hide Repr, Total;
      var block: SurplusBlock? := null;
      UpdateExact(W, Value, history, u);
      UpdateExact(W, Surplus, history, u);
      assert (history + [u])[..drained] == history[..drained];
      if u.count != 1 {
        if surplus == null {
          PlainWords(W, history, drained);
          surplus := new SurplusBlock();
        }
        block := surplus;
      }
      TotalAppend(Surplus, history, u);
      seqNo := seqNo + 1;
      if block != null {
        block.total := AddRaw(W, block.total, (u.count - 1) % W, u.count < 1);
      }
      sum := AddRaw(W, sum, u.value % W, u.value < 0);
      seqNo := seqNo + 1;
      history := history + [u];
    }

    /** reset() returns the exact totals of the updates since the previous one, clamped once. */
    method Reset() returns (c: int, s: int)
      requires Valid()
      modifies this, surplus
      ensures Valid() && history == old(history) && drained == |history|
      ensures c == ClampInt(W, Total(Count, history[old(drained)..]))
      ensures s == ClampInt(W, Total(Value, history[old(drained)..]))
    {
      assert history[drained..|history|] == history[drained..];
      assert history[..|history|] == history;
      if seqNo == lastSeq {
        return 0, 0;
      }
      WindowExact(W, history, drained, |history|);
      c, s := Drain();
    }

    method Drain() returns (c: int, s: int)
      requires Valid()
      modifies this, surplus
      ensures Valid() && history == old(history) && drained == |history|
      ensures c == DrainedCount(W, Repr(W, Total(Surplus, history)), Repr(W, Total(Surplus, history[..old(drained)])),
                                |history| - old(drained))
      ensures s == DrainedSum(W, Repr(W, Total(Value, history)), Repr(W, Total(Value, history[..old(drained)])))
    {
      hide Repr, Total;
      assert history[..|history|] == history;
      if surplus == null {
        PlainWords(W, history, drained);
      }
      var base := if surplus == null then ZERO else surplus.base;
      var total := if surplus == null then ZERO else surplus.total;
      c := DrainedCount(W, total, base, (seqNo - lastSeq) / 2);
      s := DrainedSum(W, sum, baseSum);
      if surplus != null {
        surplus.base := total;
      }
      baseSum := sum;
      lastSeq := seqNo;
      drained := |history|;
    }

    /** count(): the window so far, which Reset() would return. */
    method WindowCount() returns (c: int)
      requires Valid()
      ensures c == ClampInt(W, Total(Count, history[drained..]))
    {
      hide Repr, Total, ClampInt, Clamp, AddCalls, Difference;
      if surplus == null {
        PlainWords(W, history, drained);
      }
      WindowExact(W, history, drained, |history|);
      assert history[..|history|] == history && history[drained..|history|] == history[drained..];
      var base := if surplus == null then ZERO else surplus.base;
      var total := if surplus == null then ZERO else surplus.total;
      c := Clamp(W, AddCalls(W, Difference(W, total, base), (seqNo - lastSeq) / 2));
    }

    /** sum(): likewise. */
    method WindowSum() returns (s: int)
      requires Valid()
      ensures s == ClampInt(W, Total(Value, history[drained..]))
    {
      WindowExact(W, history, drained, |history|);
      assert history[..|history|] == history && history[drained..|history|] == history[drained..];
      s := Clamp(W, Difference(W, sum, baseSum));
    }
  }

  /** Without a count other than 1, the words a block would hold are zero. */
  lemma PlainWords(W: int, h: seq<Update>, n: nat)
    requires Width(W) && n <= |h| && forall i :: 0 <= i < |h| ==> h[i].count == 1
    ensures Repr(W, Total(Surplus, h)) == ZERO && Repr(W, Total(Surplus, h[..n])) == ZERO
  {
    PlainUpdatesHaveNoSurplus(h);
    PlainUpdatesHaveNoSurplus(h[..n]);
    ReprUnique(W, 0, 0, 0);
  }

  // ----- the two compared -----

  /** Saturating addition of a whole history is a shift between two limits. */
  lemma {:induction false} SaturatedIsAClampedShift(W: int, f: Field, start: int, h: seq<Update>)
    requires Width(W) && InType(W, start)
    ensures var low, high := Saturated(W, f, Min(W), h), Saturated(W, f, Max(W), h);
      var shifted := start + Total(f, h);
      && Min(W) <= low <= high <= Max(W)
      && Saturated(W, f, start, h) == Between(low, high, shifted)
  {
    if h != [] {
      hide Saturated, Total;
      var p, a := h[..|h| - 1], Amount(f, h[|h| - 1]);
      SaturatedIsAClampedShift(W, f, start, p);
      SaturatedStep(W, f, h);
      ClampedShiftStep(W, Saturated(W, f, Min(W), p), Saturated(W, f, Max(W), p), start + Total(f, p), a);
    }
  }

  lemma SaturatedStep(W: int, f: Field, h: seq<Update>)
    requires h != []
    ensures var p, a := h[..|h| - 1], Amount(f, h[|h| - 1]);
      && Total(f, h) == Total(f, p) + a
      && forall start: int :: Saturated(W, f, start, h) == ClampInt(W, Saturated(W, f, start, p) + a)
  {}

  function Between(low: int, high: int, v: int): int { if v < low then low else if v > high then high else v }

  /** Shifting and clamping again moves the two limits and the value between them alike. */
  lemma ClampedShiftStep(W: int, low: int, high: int, v: int, a: int)
    requires Width(W) && Min(W) <= low <= high <= Max(W)
    ensures var low', high' := ClampInt(W, low + a), ClampInt(W, high + a);
      && Min(W) <= low' <= high' <= Max(W)
      && ClampInt(W, Between(low, high, v) + a) == Between(low', high', v + a)
  {}

  /**
    The non-locking class and the thread-safe class return the same total for a window
    exactly when the window's true total, clamped, is one that clamping on every add can
    still reach: it lies between what the window makes of the lower limit and of the upper.
   */
  lemma ClampPerAddAgreesIff(W: int, f: Field, h: seq<Update>)
    requires Width(W)
    ensures Saturated(W, f, 0, h) == ClampInt(W, Total(f, h))
       <==> Saturated(W, f, Min(W), h) <= ClampInt(W, Total(f, h)) <= Saturated(W, f, Max(W), h)
  {
    SaturatedIsAClampedShift(W, f, 0, h);
  }

  /** They agree when no prefix of the window leaves the range of the type, */
  lemma {:induction false} AgreeWhenPrefixesFit(W: int, f: Field, h: seq<Update>)
    requires Width(W) && forall n :: 0 <= n <= |h| ==> InType(W, Total(f, h[..n]))
    ensures Saturated(W, f, 0, h) == Total(f, h) == ClampInt(W, Total(f, h))
  {
    assert h[..|h|] == h;
    if h != [] {
      var p := h[..|h| - 1];
      forall n | 0 <= n <= |p| ensures InType(W, Total(f, p[..n])) {
        assert p[..n] == h[..n];
      }
      AgreeWhenPrefixesFit(W, f, p);
    }
  }

  /** and when all addends have one sign, saturated or not. */
  lemma {:induction false} AgreeWhenOneSign(W: int, f: Field, h: seq<Update>, negative: bool)
    requires Width(W)
    requires forall i :: 0 <= i < |h| ==> if negative then Amount(f, h[i]) <= 0 else Amount(f, h[i]) >= 0
    ensures Saturated(W, f, 0, h) == ClampInt(W, Total(f, h))
    ensures if negative then Total(f, h) <= 0 else Total(f, h) >= 0
  {
    if h != [] {
      AgreeWhenOneSign(W, f, h[..|h| - 1], negative);
    }
  }

  /** A total that overflows and comes back: one class reports the limit less one, the other the truth. */
  lemma OverflowAndBackDisagrees(W: int)
    requires Width(W)
    ensures var h := [Update(Max(W), 1), Update(1, 1), Update(-1, 1)];
      AllTyped(W, h) && Saturated(W, Value, 0, h) == Max(W) - 1 && ClampInt(W, Total(Value, h)) == Max(W)
  {
    var a, b, c := Update(Max(W), 1), Update(1, 1), Update(-1, 1);
    assert [a, b, c][..2] == [a, b] && [a, b][..1] == [a] && [a][..0] == [];
    assert Total(Value, []) == 0 && Saturated(W, Value, 0, []) == 0;
    assert Total(Value, [a]) == Max(W) && Saturated(W, Value, 0, [a]) == Max(W);
    assert Total(Value, [a, b]) == Max(W) + 1 && Saturated(W, Value, 0, [a, b]) == Max(W);
  }
}
