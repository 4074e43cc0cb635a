/**
  Exact-arithmetic sums and compounding products over a series of rates.

  Rates are fractions (0.01 is one percent) held as `real`, so none of the
  floating-point rounding of the numerical arrays the service uses appears here.
  Both folds recurse on the last element, which is the shape a running
  (prefix) accumulation has.
 */
module Sums {

  /** The sum of all values of a series; 0 for the empty series. */
  function Sum(s: seq<real>): real
  {
    if |s| == 0 then 0.0 else Sum(s[..|s| - 1]) + s[|s| - 1]
  }

  /** The product of the growth factors (1 + rate) of a series; 1 for the empty series. */
  function Growth(s: seq<real>): real
  {
    if |s| == 0 then 1.0 else Growth(s[..|s| - 1]) * (1.0 + s[|s| - 1])
  }

  /** Summing a concatenation is summing its parts. */
  lemma {:induction false} SumAppend(a: seq<real>, b: seq<real>)
    ensures Sum(a + b) == Sum(a) + Sum(b)
  {
    if |b| == 0 {
      assert a + b == a;
    } else {
      assert (a + b)[..|a + b| - 1] == a + b[..|b| - 1];
      SumAppend(a, b[..|b| - 1]);
    }
  }

  /** Compounding a concatenation multiplies the growth of its parts. */
  lemma {:induction false} GrowthAppend(a: seq<real>, b: seq<real>)
    ensures Growth(a + b) == Growth(a) * Growth(b)
  {
    if |b| == 0 {
      assert a + b == a;
    } else {
      assert (a + b)[..|a + b| - 1] == a + b[..|b| - 1];
      GrowthAppend(a, b[..|b| - 1]);
    }
  }

  /** With no negative rate, compounding never earns less than simple addition:
      the product of (1 + v_k) is at least 1 plus the sum of the v_k. */
  lemma {:induction false} GrowthDominatesSum(s: seq<real>)
    requires forall k :: 0 <= k < |s| ==> s[k] >= 0.0
    ensures Sum(s) >= 0.0
    ensures Growth(s) >= 1.0 + Sum(s)
  {
    if |s| > 0 {
      var p, x := s[..|s| - 1], s[|s| - 1];
      GrowthDominatesSum(p);
      var slack := Growth(p) - (1.0 + Sum(p));
      assert slack * (1.0 + x) >= 0.0;
      assert Growth(p) * (1.0 + x) == (1.0 + Sum(p)) * (1.0 + x) + slack * (1.0 + x);
      assert (1.0 + Sum(p)) * (1.0 + x) == 1.0 + Sum(p) + x + Sum(p) * x;
      assert Sum(p) * x >= 0.0;
    }
  }
}
