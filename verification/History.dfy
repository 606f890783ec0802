/**
  What the accumulators are for: a history of updates and its exact integer totals, and
  the two-word arithmetic of `Words` shown to compute them.
 */
module History {
  import opened Words

  /** One addValue(value, count) call. */
  datatype Update = Update(value: int, count: int)

  predicate Typed(W: int, u: Update) {
    InType(W, u.value) && InType(W, u.count)
  }

  predicate AllTyped(W: int, h: seq<Update>) {
    forall i :: 0 <= i < |h| ==> Typed(W, h[i])
  }

  /** The three totals: of the values, of the counts, and of what each count has over one call. */
  datatype Field = Value | Count | Surplus

  function Amount(f: Field, u: Update): int {
    match f
    case Value => u.value
    case Count => u.count
    case Surplus => u.count - 1
  }

  function Total(f: Field, h: seq<Update>): int {
    if h == [] then 0 else Total(f, h[..|h| - 1]) + Amount(f, h[|h| - 1])
  }

  lemma TotalAppend(f: Field, h: seq<Update>, u: Update)
    ensures Total(f, h + [u]) == Total(f, h) + Amount(f, u)
  {
    assert (h + [u])[..|h|] == h;
  }

  lemma {:induction false} TotalConcat(f: Field, a: seq<Update>, b: seq<Update>)
    ensures Total(f, a + b) == Total(f, a) + Total(f, b)
  {
    if b == [] {
      assert a + b == a;
    } else {
      var n := |b| - 1;
      assert a + b == (a + b[..n]) + [b[n]];
      TotalConcat(f, a, b[..n]);
      TotalAppend(f, a + b[..n], b[n]);
    }
  }

  /** A window's total is the difference of the totals at its two ends. */
  lemma TotalWindow(f: Field, h: seq<Update>, from: nat, to: nat)
    requires from <= to <= |h|
    ensures Total(f, h[from..to]) == Total(f, h[..to]) - Total(f, h[..from])
  {
    assert h[..to] == h[..from] + h[from..to];
    TotalConcat(f, h[..from], h[from..to]);
  }

  /** The sequence number counts one call per update; the surplus carries the rest of the count. */
  lemma {:induction false} CountIsCallsPlusSurplus(h: seq<Update>)
    ensures Total(Count, h) == |h| + Total(Surplus, h)
  {
    if h != [] {
      CountIsCallsPlusSurplus(h[..|h| - 1]);
    }
  }

  lemma {:induction false} PlainUpdatesHaveNoSurplus(h: seq<Update>)
    requires forall i :: 0 <= i < |h| ==> h[i].count == 1
    ensures Total(Surplus, h) == 0
  {
    if h != [] {
      PlainUpdatesHaveNoSurplus(h[..|h| - 1]);
    }
  }

  lemma {:induction false} TotalBound(W: int, f: Field, h: seq<Update>)
    requires Width(W) && AllTyped(W, h)
    ensures W * -|h| <= Total(f, h)
    ensures Total(f, h) < W * |h| || h == []
  {
    if h != [] {
      var n := |h| - 1;
      TotalBound(W, f, h[..n]);
      assert Typed(W, h[n]);
      assert W * -|h| == W * -n - W && W * |h| == W * n + W;
    }
  }

  /**
    The carry moves by at most one per update, so fewer than 2^63 updates never bring the
    total of any field near the limits of the signed 64-bit carry.
   */
  lemma CarryNeverOverflows(W: int, f: Field, h: seq<Update>)
    requires Width(W) && AllTyped(W, h)
    ensures -|h| <= Repr(W, Total(f, h)).hi <= |h|
    ensures |h| < TWO63 ==> Fits(W, Total(f, h))
  {
    TotalBound(W, f, h);
    if h != [] {
      CarryBounds(W, Total(f, h), -|h|, |h|);
    }
  }

  /** The addend and sign that addValue passes for a field, and that the words then absorb exactly. */
  lemma UpdateExact(W: int, f: Field, h: seq<Update>, u: Update)
    requires Width(W) && AllTyped(W, h) && Typed(W, u) && |h| + 1 < TWO63
    ensures AddRaw(W, Repr(W, Total(f, h)), Amount(f, u) % W, Amount(f, u) < 0)
         == Repr(W, Total(f, h + [u]))
  {
    CarryNeverOverflows(W, f, h + [u]);
    TotalAppend(f, h, u);
    AddRawExact(W, Total(f, h), Amount(f, u));
  }

  // ----- what a drain returns -----

  /** The pair a drain computes from the totals at the two ends of a window. */
  function DrainedSum(W: int, now: Pair, base: Pair): int
    requires Width(W)
  {
    Clamp(W, Difference(W, now, base))
  }

  function DrainedCount(W: int, now: Pair, base: Pair, calls: nat): int
    requires Width(W)
  {
    Clamp(W, AddCalls(W, Difference(W, now, base), calls))
  }

  lemma WindowDifference(W: int, f: Field, h: seq<Update>, from: nat, to: nat)
    requires Width(W) && AllTyped(W, h) && from <= to <= |h| < TWO63
    ensures Difference(W, Repr(W, Total(f, h[..to])), Repr(W, Total(f, h[..from])))
         == Repr(W, Total(f, h[from..to]))
  {
    TotalWindow(f, h, from, to);
    CarryNeverOverflows(W, f, h[from..to]);
    DifferenceExact(W, Total(f, h[..to]), Total(f, h[..from]));
  }

  lemma WindowCount(W: int, w: seq<Update>)
    requires Width(W) && AllTyped(W, w) && |w| < TWO63
    ensures Clamp(W, AddCalls(W, Repr(W, Total(Surplus, w)), |w|)) == ClampInt(W, Total(Count, w))
  {
    CountIsCallsPlusSurplus(w);
    CarryNeverOverflows(W, Count, w);
    AddCallsExact(W, Total(Surplus, w), |w|);
    ClampExact(W, Total(Count, w));
  }

  /**
    For any history and any window of it, difference, addCalls and clamp applied to the
    two-word totals give the window's exact integer totals, clamped once.
   */
  lemma WindowExact(W: int, h: seq<Update>, from: nat, to: nat)
    requires Width(W) && AllTyped(W, h) && from <= to <= |h| < TWO63
    ensures DrainedSum(W, Repr(W, Total(Value, h[..to])), Repr(W, Total(Value, h[..from])))
         == ClampInt(W, Total(Value, h[from..to]))
    ensures DrainedCount(W, Repr(W, Total(Surplus, h[..to])), Repr(W, Total(Surplus, h[..from])), to - from)
         == ClampInt(W, Total(Count, h[from..to]))
  {
    WindowDifference(W, Value, h, from, to);
    ClampExact(W, Total(Value, h[from..to]));
    WindowDifference(W, Surplus, h, from, to);
    WindowCount(W, h[from..to]);
  }
}
