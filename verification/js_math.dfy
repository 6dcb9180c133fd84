/**
  The JavaScript number built-ins the forecast engine relies on, over `real`.
  `Math.round` rounds to the nearest integer with halves going toward +infinity,
  which is `Floor(x + 1/2)`; it is not round-half-away-from-zero.
 */
module JsMath {

  /** True when `x` has no fractional part. */
  predicate IsIntegral(x: real) {
    x.Floor as real == x
  }

  /** `Math.round(x)`; `RoundBounds` characterises it. */
  function Round(x: real): real {
    (x + 0.5).Floor as real
  }

  /** `Math.round(x)` is an integer in the half-open window (x - 1/2, x + 1/2]. */
  lemma RoundBounds(x: real)
    ensures IsIntegral(Round(x))
    ensures x - 0.5 < Round(x) <= x + 0.5
  {
  }

  /** The window in `Round`'s contract pins the result down: any integer in it is the result. */
  lemma RoundUnique(x: real, n: int)
    requires x - 0.5 < n as real <= x + 0.5
    ensures Round(x) == n as real
  {
    RoundBounds(x);
    var r := Round(x);
    assert r.Floor as real == r;
    assert n - 1 < r.Floor < n + 1;
  }

  /** Rounding an integer gives it back; in particular `Round(0) == 0`. */
  lemma RoundIntegral(n: int)
    ensures Round(n as real) == n as real
  {
    RoundUnique(n as real, n);
  }

  /** `Math.round` is monotone. */
  lemma RoundMonotone(x: real, y: real)
    requires x <= y
    ensures Round(x) <= Round(y)
  {
    RoundBounds(x);
    RoundBounds(y);
    var a := Round(x);
    var b := Round(y);
    assert a.Floor as real == a && b.Floor as real == b;
    assert a.Floor < b.Floor + 1;
  }

  /** `round1(v) = Math.round(v * 10) / 10`; `Round1Bounds` characterises it. */
  function Round1(v: real): real {
    Round(v * 10.0) / 10.0
  }

  /** `round1(v)` is a whole number of tenths within 0.05 of `v`. */
  lemma Round1Bounds(v: real)
    ensures IsIntegral(Round1(v) * 10.0)
    ensures v - 0.05 < Round1(v) <= v + 0.05
  {
    RoundBounds(v * 10.0);
  }

  /** `(pct / 100) * base`, the share of `base` that a percentage names. */
  function OfPct(pct: real, base: real): real {
    (pct / 100.0) * base
  }

  /** `v * (1 + pct / 100)`, `v` grown by a percentage. */
  function Grow(v: real, pct: real): real {
    v * (1.0 + pct / 100.0)
  }

  /** `(days / 365) * base`, the part of an annual flow outstanding for `days` days. */
  function OfDays(days: real, base: real): real {
    (days / 365.0) * base
  }

  function Max(a: real, b: real): (r: real)
    ensures r >= a && r >= b
    ensures r == a || r == b
  {
    if a >= b then a else b
  }

  function Min(a: real, b: real): (r: real)
    ensures r <= a && r <= b
    ensures r == a || r == b
  {
    if a <= b then a else b
  }

  function Abs(x: real): (r: real)
    ensures r >= 0.0
    ensures r == x || r == -x
  {
    if x < 0.0 then -x else x
  }
}
