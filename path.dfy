/**
 * Reductions over a price path: the ordered, non-empty sequence of observed
 * prices of the underlying, whose last element is the price at expiry.
 * These stand for the vectorised maximum, minimum and mean the payoffs use.
 */
module PricePath {

  /** The largest observation of a non-empty path; it is one of the observations. */
  function Max(s: seq<real>): (m: real)
    requires |s| > 0
    ensures m in s
    ensures forall i :: 0 <= i < |s| ==> s[i] <= m
  {
    if |s| == 1 then s[0]
    else
      var rest := Max(s[1..]);
      if s[0] >= rest then s[0] else rest
  }

  /** The smallest observation of a non-empty path; it is one of the observations. */
  function Min(s: seq<real>): (m: real)
    requires |s| > 0
    ensures m in s
    ensures forall i :: 0 <= i < |s| ==> m <= s[i]
  {
    if |s| == 1 then s[0]
    else
      var rest := Min(s[1..]);
      if s[0] <= rest then s[0] else rest
  }

  /** The total of all observations; its bounds are `SumAtLeast` and `SumAtMost`. */
  function Sum(s: seq<real>): real
  {
    if |s| == 0 then 0.0 else s[0] + Sum(s[1..])
  }

  /** A lower bound shared by every observation bounds the total from below. */
  lemma {:induction false} SumAtLeast(s: seq<real>, lo: real)
    requires forall i :: 0 <= i < |s| ==> lo <= s[i]
    ensures |s| as real * lo <= Sum(s)
  {
    if |s| > 0 {
      SumAtLeast(s[1..], lo);
      assert (|s| - 1) as real * lo + lo == |s| as real * lo;
    }
  }

  /** An upper bound shared by every observation bounds the total from above. */
  lemma {:induction false} SumAtMost(s: seq<real>, hi: real)
    requires forall i :: 0 <= i < |s| ==> s[i] <= hi
    ensures Sum(s) <= |s| as real * hi
  {
    if |s| > 0 {
      SumAtMost(s[1..], hi);
      assert (|s| - 1) as real * hi + hi == |s| as real * hi;
    }
  }

  /** Dividing a total bounded by `n * lo` and `n * hi` by `n > 0` keeps it within `[lo, hi]`. */
  lemma QuotientBetween(total: real, n: real, lo: real, hi: real)
    requires n > 0.0 && n * lo <= total <= n * hi
    ensures lo <= total / n <= hi
  {
    var q := total / n;
    assert n * (q - lo) == total - n * lo;
    assert n * (hi - q) == n * hi - total;
  }

  /** The arithmetic mean of a non-empty path lies between its extrema. */
  function Mean(s: seq<real>): (a: real)
    requires |s| > 0
    ensures Min(s) <= a <= Max(s)
  {
    SumAtLeast(s, Min(s));
    SumAtMost(s, Max(s));
    QuotientBetween(Sum(s), |s| as real, Min(s), Max(s));
    Sum(s) / |s| as real
  }

  /** The terminal (expiry) price; it lies between the path's extrema. */
  function Last(s: seq<real>): (x: real)
    requires |s| > 0
    ensures Min(s) <= x <= Max(s)
    ensures x in s
  {
    s[|s| - 1]
  }
}
