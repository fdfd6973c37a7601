/** Small facts about exact real arithmetic, used in place of IEEE doubles. */
module Reals {

  /** Truncation toward zero, as a C++ cast from floating point to integer. */
  function Trunc(x: real): int {
    if x >= 0.0 then x.Floor else -((-x).Floor)
  }

  /** std::fmod: the remainder of the quotient truncated toward zero. */
  function Fmod(v: real, s: real): real
    requires s != 0.0
  {
    v - s * (Trunc(v / s) as real)
  }

  /** The quantity made of k steps of size s. */
  function Lots(k: int, s: real): real {
    (k as real) * s
  }

  /** q is a whole number of steps; a step of 0 constrains nothing. */
  ghost predicate OnGrid(q: real, s: real) {
    s == 0.0 || exists k: int :: q == Lots(k, s)
  }

  lemma {:induction false} OppositeOnGrid(q: real, s: real)
    ensures OnGrid(-q, s) <==> OnGrid(q, s)
  {
    if s != 0.0 && OnGrid(q, s) {
      var k: int :| q == Lots(k, s);
      assert -q == Lots(-k, s);
    }
    if s != 0.0 && OnGrid(-q, s) {
      var k: int :| -q == Lots(k, s);
      assert q == Lots(-k, s);
    }
  }

  /** The remainder has the sign of the value. */
  lemma {:induction false} FmodOfOpposite(v: real, s: real)
    requires v < 0.0 < s
    ensures Fmod(v, s) == -Fmod(-v, s)
  {
    var x := v / s;
    assert (-v) / s == -x;
    DivMono(0.0, -v, s, s);
    assert Trunc(-x) == -Trunc(x);
  }

  lemma MulMono(a: real, b: real, c: real)
    requires a <= b && 0.0 <= c
    ensures a * c <= b * c
  {}

  lemma MulNonNeg(a: real, b: real)
    requires 0.0 <= a && 0.0 <= b
    ensures 0.0 <= a * b
  {}

  lemma MulMono2(a: real, b: real, c: real, d: real)
    requires 0.0 <= a <= b && 0.0 <= c <= d
    ensures 0.0 <= a * c <= b * d
  {}

  lemma MulAssoc(a: real, b: real, c: real)
    ensures (a * b) * c == a * (b * c)
  {}

  lemma DivMul(a: real, b: real)
    requires b != 0.0
    ensures (a / b) * b == a
    ensures a * (1.0 / b) == a / b
  {}

  /** Division is monotone in the numerator and antitone in a positive denominator. */
  lemma DivMono(a: real, b: real, c: real, d: real)
    requires 0.0 <= a <= b && 0.0 < d <= c
    ensures 0.0 <= a / c <= b / d
  {}

  lemma MulCancel(a: real, b: real, c: real)
    requires a * c <= b * c && 0.0 < c
    ensures a <= b
  {}

  /** Steps are ordered like their counts. */
  lemma LotsMono(i: int, j: int, s: real)
    requires 0.0 < s
    ensures i <= j <==> Lots(i, s) <= Lots(j, s)
  {}

  /** For a non-negative value the remainder leaves a whole number of steps, the largest not above it. */
  lemma FmodOfNonNegative(v: real, s: real)
    requires 0.0 <= v && 0.0 < s
    ensures var k := (v / s).Floor; 0 <= k && v - Fmod(v, s) == Lots(k, s) && Lots(k, s) <= v < Lots(k + 1, s)
  {
    var k := (v / s).Floor;
    DivMono(0.0, v, s, s);
    assert 0.0 <= v / s;
    assert k as real <= v / s < (k + 1) as real;
    DivMul(v, s);
    MulMono(k as real, v / s, s);
    assert (v / s) * s < ((k + 1) as real) * s;
  }
}
