/** The canvas's number handling: JavaScript's `Math.round`, `Math.floor`, `Math.ceil`,
    `Math.max`, and `format` (two-decimal rounding through `toFixed(2)`), over exact reals. */
module Numbers {

  /** `Math.floor`. */
  function Floor(v: real): (r: int)
    ensures r as real <= v < r as real + 1.0
  {
    v.Floor
  }

  /** `Math.ceil`. */
  function Ceil(v: real): (r: int)
    ensures v <= r as real < v + 1.0
  {
    if v.Floor as real == v then v.Floor else v.Floor + 1
  }

  /** `Math.round`: the nearest integer, halves rounded towards +infinity. */
  function Round(v: real): (r: int)
    ensures v - 0.5 < r as real <= v + 0.5
  {
    (v + 0.5).Floor
  }

  function Max(a: real, b: real): (r: real)
    ensures r >= a && r >= b && (r == a || r == b)
  {
    if a >= b then a else b
  }

  function Min(a: real, b: real): (r: real)
    ensures r <= a && r <= b && (r == a || r == b)
  {
    if a <= b then a else b
  }

  function Abs(v: real): (r: real)
    ensures r >= 0.0 && (r == v || r == -v)
  {
    if v >= 0.0 then v else -v
  }

  /** A whole number of hundredths: what `format` produces. */
  predicate IsHundredths(v: real) {
    (v * 100.0).Floor as real == v * 100.0
  }

  /** The magnitude part of `toFixed(2)`: the nearest multiple of 0.01 to `a`, the larger
      one on a tie. */
  function FixedMagnitude(a: real): (q: real)
    requires a >= 0.0
    ensures a - 0.005 < q <= a + 0.005
    ensures IsHundredths(q) && IsHundredths(-q)
  {
    var n := (a * 100.0 + 0.5).Floor;
    var q := n as real / 100.0;
    assert q * 100.0 == n as real;
    assert a * 100.0 - 0.5 < n as real <= a * 100.0 + 0.5;
    assert (q * 100.0).Floor == n;
    assert (-q) * 100.0 == -(n as real);
    assert ((-q) * 100.0).Floor == -n;
    q
  }

  /** `format`: `toFixed(2)` rounds the magnitude and restores the sign, so halves round
      away from zero. */
  function Format(v: real): (r: real)
    ensures v - 0.005 <= r <= v + 0.005
    ensures IsHundredths(r)
  {
    var q := FixedMagnitude(if v >= 0.0 then v else -v);
    if v >= 0.0 then q else -q
  }

  /** Formatting is symmetric about zero. */
  lemma FormatNegate(v: real)
    ensures Format(-v) == -Format(v)
  {
  }

  /** A value exactly halfway between two hundredths rounds away from zero: up when it is
      positive, down when it is negative. */
  lemma FormatTiesAwayFromZero(n: int)
    ensures Format((n as real + 0.5) / 100.0) == (if n >= 0 then n + 1 else n) as real / 100.0
  {
    var v := (n as real + 0.5) / 100.0;
    if n >= 0 {
      assert v * 100.0 + 0.5 == (n + 1) as real;
    } else {
      assert (-v) * 100.0 + 0.5 == (-n) as real;
    }
  }

  /** A value that is already a whole number of hundredths is left alone. */
  lemma FormatKeepsHundredths(v: real)
    requires IsHundredths(v)
    ensures Format(v) == v
  {
    var k := (v * 100.0).Floor;
    if v >= 0.0 {
      assert (v * 100.0 + 0.5).Floor == k;
    } else {
      assert (-v) * 100.0 == -(k as real);
      assert ((-v) * 100.0 + 0.5).Floor == -k;
    }
  }

  /** `format` is idempotent: formatting twice is formatting once. */
  lemma FormatIdempotent(v: real)
    ensures Format(Format(v)) == Format(v)
  {
    FormatKeepsHundredths(Format(v));
  }

  /** `format` never decreases: a larger input gives a result at least as large. */
  lemma FormatMonotone(u: real, v: real)
    requires u <= v
    ensures Format(u) <= Format(v)
  {
    if u >= 0.0 {
      assert (u * 100.0 + 0.5).Floor <= (v * 100.0 + 0.5).Floor;
    } else if v < 0.0 {
      assert ((-v) * 100.0 + 0.5).Floor <= ((-u) * 100.0 + 0.5).Floor;
    }
  }

  /** A length or coordinate in device units: a user-space value times the scale. */
  function Device(v: real, scale: real): real {
    v * scale
  }

  /** A coordinate moved by an offset (`x += s.dx`). */
  function Moved(v: real, d: real): real {
    v + d
  }

  /** A strict upper bound of a finite set of numbers. */
  ghost function UpperBound(s: set<nat>): (b: nat)
    ensures forall n :: n in s ==> n < b
    decreases s
  {
    if s == {} then 0
    else
      var x :| x in s;
      var b := UpperBound(s - {x});
      assert forall n :: n in s && n != x ==> n in s - {x};
      if x < b then b else x + 1
  }

  /** The least number from `from` on that is not in `s`. */
  ghost function LeastAbsentFrom(s: set<nat>, from: nat): (n: nat)
    ensures from <= n && n !in s
    ensures forall m: nat :: from <= m < n ==> m in s
    decreases UpperBound(s) - from
  {
    if from in s then LeastAbsentFrom(s, from + 1) else from
  }

  /** The least number not in `s`: the suffix an id probe that counts up from 0 settles on. */
  ghost function LeastAbsent(s: set<nat>): (n: nat)
    ensures n !in s
    ensures forall m: nat :: m < n ==> m in s
  {
    LeastAbsentFrom(s, 0)
  }

  /** Multiplying by a non-negative factor keeps the order. */
  lemma MulMonotone(a: real, b: real, c: real)
    requires a <= b && c >= 0.0
    ensures a * c <= b * c
  {
    assert b * c - a * c == (b - a) * c;
  }
}
