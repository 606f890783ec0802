/**
  The two-word arithmetic of the thread-safe time series: a low word of the width of
  the value type and a signed 64-bit carry word.  Every function here is the body of one
  C++ helper, on a word modulus `W` (2^8, 2^16, 2^32 or 2^64 in C++).
 */
module Words {

  /** The modulus of the carry word and of the sequence words. */
  const TWO64: int := 0x1_0000_0000_0000_0000
  const TWO63: int := 0x8000_0000_0000_0000

  /** What the proofs need of the low word's modulus. */
  predicate Width(W: int) {
    4 <= W && W % 2 == 0 && (W <= TWO63 || W == TWO64)
  }

  /** The range of the signed type of that width. */
  predicate InType(W: int, v: int) {
    -(W / 2) <= v < W / 2
  }

  /** A low word and a carry word. */
  datatype Pair = Pair(lo: nat, hi: int)

  const ZERO := Pair(0, 0)

  /** Reinterprets an integer, reduced modulo 2^64, as a signed 64-bit value. */
  function Signed64(x: int): (r: int)
    ensures -TWO63 <= r < TWO63
    ensures -TWO63 <= x < TWO63 ==> r == x
  {
    var m := x % TWO64;
    if m < TWO63 then m else m - TWO64
  }

  // ----- the helpers -----

  function LowSum(W: int, before: nat, addend: nat): nat
    requires Width(W)
  {
    (before + addend) % W
  }

  predicate Wraps(before: nat, after: nat, negative: bool) {
    if negative then after > before else after < before
  }

  function StepCarry(hi: int, negative: bool): int {
    Signed64(if negative then hi + (TWO64 - 1) else hi + 1)
  }

  function AddRaw(W: int, p: Pair, addend: nat, negative: bool): Pair
    requires Width(W)
  {
    var after := LowSum(W, p.lo, addend);
    Pair(after, if Wraps(p.lo, after, negative) then StepCarry(p.hi, negative) else p.hi)
  }

  function Difference(W: int, now: Pair, base: Pair): Pair
    requires Width(W)
  {
    var borrow := if now.lo < base.lo then 1 else 0;
    Pair((now.lo - base.lo) % W, Signed64(now.hi - base.hi - borrow))
  }

  /** A low word narrower than the 64-bit call count can wrap many times at once. */
  function AddCalls(W: int, delta: Pair, calls: nat): Pair
    requires Width(W)
  {
    if W < TWO64 then
      var sum := (delta.lo + calls) % TWO64;
      Pair(sum % W, Signed64(delta.hi + sum / W))
    else
      var lo := (delta.lo + calls) % W;
      Pair(lo, Signed64(delta.hi + if lo < delta.lo then 1 else 0))
  }

  function Max(W: int): int { W / 2 - 1 }
  function Min(W: int): int { -(W / 2) }

  /** The signed value of a low word. */
  function AsSigned(W: int, lo: nat): int {
    if lo > Max(W) then lo - W else lo
  }

  function Clamp(W: int, delta: Pair): int {
    if delta.hi > 0 then Max(W)
    else if delta.hi == 0 then
      if delta.lo > Max(W) then Max(W) else AsSigned(W, delta.lo)
    else if delta.hi == -1 then
      if delta.lo > Max(W) then AsSigned(W, delta.lo) else Min(W)
    else Min(W)
  }

  // ----- what they mean -----

  /** The words that stand for the integer `v`. */
  function Repr(W: int, v: int): Pair
    requires Width(W)
  {
    Pair(v % W, v / W)
  }

  /** An integer brought into the range of the type. */
  function ClampInt(W: int, v: int): int {
    if v > Max(W) then Max(W) else if v < Min(W) then Min(W) else v
  }

  lemma Monotone(W: int, a: int, b: int)
    requires W > 0 && a <= b
    ensures W * a <= W * b
  {}

  /** Quotient and remainder by `W` are the only pair of their kind. */
  lemma ReprUnique(W: int, v: int, lo: int, hi: int)
    requires Width(W) && 0 <= lo < W && v == W * hi + lo
    ensures Repr(W, v) == Pair(lo, hi)
  {
    var q := v / W;
    assert v == W * q + v % W;
    if q < hi {
      Monotone(W, q + 1, hi);
      assert false;
    } else if q > hi {
      Monotone(W, hi + 1, q);
      assert false;
    }
  }

  lemma ReprValue(W: int, v: int)
    requires Width(W)
    ensures v == W * Repr(W, v).hi + Repr(W, v).lo && 0 <= Repr(W, v).lo < W
  {}

  /** Reduction of a value less than one modulus away. */
  lemma ReduceSmall(W: int, a: int)
    requires Width(W) && -W < a < 2 * W
    ensures a % W == if a < 0 then a + W else if a < W then a else a - W
  {
    if a < 0 {
      ReprUnique(W, a, a + W, -1);
    } else if a < W {
      ReprUnique(W, a, a, 0);
    } else {
      ReprUnique(W, a, a - W, 1);
    }
  }

  /** The carry of `v` is inside its 64 bits. */
  predicate Fits(W: int, v: int)
    requires Width(W)
  {
    -TWO63 <= v / W < TWO63
  }

  /** An integer between two multiples has its carry between the two factors. */
  lemma CarryBounds(W: int, v: int, low: int, high: int)
    requires Width(W) && W * low <= v < W * high
    ensures low <= v / W < high
  {
    ReprValue(W, v);
    var q := v / W;
    if q < low {
      Monotone(W, q + 1, low);
    } else if q >= high {
      Monotone(W, high, q);
    }
  }

  /** Adding 2^64 - 1 and reinterpreting is subtracting one. */
  lemma CarryExact(hi: int, negative: bool)
    ensures var next := if negative then hi - 1 else hi + 1;
      -TWO63 <= next < TWO63 ==> StepCarry(hi, negative) == next
  {
    if negative {
      assert (hi + (TWO64 - 1)) % TWO64 == (hi - 1) % TWO64;
    }
  }

  /** What one wrap of the low word does to the carry of the total. */
  lemma CarryOfSum(W: int, v: int, a: int)
    requires Width(W) && -W < a < W
    ensures var t := v % W + a;
      Repr(W, v + a) == if t < 0 then Pair(t + W, v / W - 1)
                        else if t < W then Pair(t, v / W)
                        else Pair(t - W, v / W + 1)
  {
    ReprValue(W, v);
    var q, t := v / W, v % W + a;
    if t < 0 {
      assert W * (q - 1) == W * q - W;
      ReprUnique(W, v + a, t + W, q - 1);
    } else if t < W {
      ReprUnique(W, v + a, t, q);
    } else {
      assert W * (q + 1) == W * q + W;
      ReprUnique(W, v + a, t - W, q + 1);
    }
  }

  /**
    Adding an addend of either sign to the words is exact integer addition, as long as
    the total fits: the one-word wrap test decides the carry correctly, also when the
    addend is one below the signed minimum.
   */
  lemma AddRawExact(W: int, v: int, a: int)
    requires Width(W) && -W < a < W && Fits(W, v + a)
    ensures AddRaw(W, Repr(W, v), a % W, a < 0) == Repr(W, v + a)
  {
    CarryOfSum(W, v, a);
    ReduceSmall(W, a);
    ReduceSmall(W, v % W + a % W);
    CarryExact(v / W, a < 0);
  }

  /** The words of a difference, from the words of its two sides. */
  lemma DifferenceWords(W: int, now: int, base: int)
    requires Width(W)
    ensures var lo, hi := now % W - base % W, now / W - base / W;
      Repr(W, now - base) == if lo < 0 then Pair(lo + W, hi - 1) else Pair(lo, hi)
  {
    ReprValue(W, now);
    ReprValue(W, base);
    var lo, hi := now % W - base % W, now / W - base / W;
    assert W * hi == W * (now / W) - W * (base / W);
    if lo < 0 {
      assert W * (hi - 1) == W * hi - W;
      ReprUnique(W, now - base, lo + W, hi - 1);
    } else {
      ReprUnique(W, now - base, lo, hi);
    }
  }

  lemma DifferenceExact(W: int, now: int, base: int)
    requires Width(W) && Fits(W, now - base)
    ensures Difference(W, Repr(W, now), Repr(W, base)) == Repr(W, now - base)
  {
    DifferenceWords(W, now, base);
    ReduceSmall(W, now % W - base % W);
  }

  lemma CallsCarry(W: int, d: int, calls: nat)
    requires Width(W)
    ensures Repr(W, d + calls) == Pair((d % W + calls) % W, d / W + (d % W + calls) / W)
  {
    ReprValue(W, d);
    var sum := d % W + calls;
    ReprValue(W, sum);
    assert W * (d / W + sum / W) == W * (d / W) + W * (sum / W);
    ReprUnique(W, d + calls, sum % W, d / W + sum / W);
  }

  lemma ModSmall(x: int)
    requires 0 <= x < TWO64
    ensures x % TWO64 == x
  {}

  /** Both branches of addCalls, the narrow and the full-width one, add exactly. */
  lemma AddCallsExact(W: int, d: int, calls: nat)
    requires Width(W) && calls < TWO63 && Fits(W, d + calls)
    ensures AddCalls(W, Repr(W, d), calls) == Repr(W, d + calls)
  {
    CallsCarry(W, d, calls);
    var sum := d % W + calls;
    if W < TWO64 {
      ModSmall(sum);
    } else if sum < W {
      ReprUnique(W, sum, sum, 0);
    } else {
      ReprUnique(W, sum, sum - W, 1);
    }
  }

  /** Reading the words as two's complement clamps the integer they stand for. */
  lemma ClampExact(W: int, v: int)
    requires Width(W)
    ensures Clamp(W, Repr(W, v)) == ClampInt(W, v)
  {
    ReprValue(W, v);
    var q := v / W;
    if q >= 1 {
      Monotone(W, 1, q);
    } else if q <= -2 {
      Monotone(W, q, -2);
    }
  }
}
