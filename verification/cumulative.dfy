/**
  The two cumulative views of a funding-rate series that the
  `/funding_rates_cumulative` endpoint serves:

  - linear:     100 * cumsum(v), the simple (added-up) return in percent;
  - compounded: 100 * (cumprod(1 + v) - 1), the geometric return in percent.

  `RunningSum` and `RunningGrowth` follow the array library's accumulation:
  each element is the previous one combined with the next input. The closed
  forms (a prefix sum, a prefix product) are proved about them.
 */
module Cumulative {
  import opened Sums

  /** cumsum: each element is the previous element plus the next value. */
  function RunningSum(v: seq<real>): (r: seq<real>)
    ensures |r| == |v|
  {
    if |v| == 0 then []
    else
      var p := RunningSum(v[..|v| - 1]);
      p + [(if |p| == 0 then 0.0 else p[|p| - 1]) + v[|v| - 1]]
  }

  /** cumprod(1 + v): each element is the previous one times the next growth factor. */
  function RunningGrowth(v: seq<real>): (r: seq<real>)
    ensures |r| == |v|
  {
    if |v| == 0 then []
    else
      var p := RunningGrowth(v[..|v| - 1]);
      p + [(if |p| == 0 then 1.0 else p[|p| - 1]) * (1.0 + v[|v| - 1])]
  }

  /** Element i of the running sum is the sum of the first i + 1 values. */
  lemma {:induction false} RunningSumIsPrefixSum(v: seq<real>)
    ensures forall i :: 0 <= i < |v| ==> RunningSum(v)[i] == Sum(v[..i + 1])
  {
    if |v| > 0 {
      var init := v[..|v| - 1];
      RunningSumIsPrefixSum(init);
      forall i | 0 <= i < |v|
        ensures RunningSum(v)[i] == Sum(v[..i + 1])
      {
        if i < |v| - 1 {
          assert v[..i + 1] == init[..i + 1];
        } else {
          assert v[..i + 1] == v;
          if i > 0 {
            assert init[..i] == init;
          }
        }
      }
    }
  }

  /** Element i of the running growth is the product of the first i + 1 growth factors. */
  lemma {:induction false} RunningGrowthIsPrefixGrowth(v: seq<real>)
    ensures forall i :: 0 <= i < |v| ==> RunningGrowth(v)[i] == Growth(v[..i + 1])
  {
    if |v| > 0 {
      var init := v[..|v| - 1];
      RunningGrowthIsPrefixGrowth(init);
      forall i | 0 <= i < |v|
        ensures RunningGrowth(v)[i] == Growth(v[..i + 1])
      {
        if i < |v| - 1 {
          assert v[..i + 1] == init[..i + 1];
        } else {
          assert v[..i + 1] == v;
          if i > 0 {
            assert init[..i] == init;
          }
        }
      }
    }
  }

  /** Multiplies every element of a series by 100 (a fraction to percent). */
  function Percent(s: seq<real>): (r: seq<real>)
    ensures |r| == |s|
  {
    seq(|s|, i requires 0 <= i < |s| => 100.0 * s[i])
  }

  /** The linear cumulative funding, 100 * cumsum(v): element i is 100 times the
      sum of the rates up to and including i. */
  function Linear(v: seq<real>): (r: seq<real>)
    ensures |r| == |v|
    ensures forall i :: 0 <= i < |v| ==> r[i] == 100.0 * Sum(v[..i + 1])
  {
    RunningSumIsPrefixSum(v);
    Percent(RunningSum(v))
  }

  /** The compounded cumulative return, 100 * (cumprod(1 + v) - 1): element i is
      the percent gain of compounding the rates up to and including i. */
  function Compounded(v: seq<real>): (r: seq<real>)
    ensures |r| == |v|
    ensures forall i :: 0 <= i < |v| ==> r[i] == 100.0 * (Growth(v[..i + 1]) - 1.0)
  {
    RunningGrowthIsPrefixGrowth(v);
    var g := RunningGrowth(v);
    seq(|g|, i requires 0 <= i < |g| => 100.0 * (g[i] - 1.0))
  }

  /** The linear series starts at the first rate in percent and each next element
      adds the next rate in percent. */
  lemma LinearRecurrence(v: seq<real>)
    ensures |v| > 0 ==> Linear(v)[0] == 100.0 * v[0]
    ensures forall i :: 0 < i < |v| ==> Linear(v)[i] == Linear(v)[i - 1] + 100.0 * v[i]
  {
    forall i | 0 <= i < |v|
      ensures Sum(v[..i + 1]) == Sum(v[..i]) + v[i]
    {
      assert v[..i + 1][..i] == v[..i];
    }
  }

  /** The compounded series starts at the first rate in percent, and each next
      element compounds the previous one by the next growth factor:
      100 + c[i] == (100 + c[i - 1]) * (1 + v[i]). */
  lemma CompoundedRecurrence(v: seq<real>)
    ensures |v| > 0 ==> Compounded(v)[0] == 100.0 * v[0]
    ensures forall i :: 0 < i < |v| ==>
      100.0 + Compounded(v)[i] == (100.0 + Compounded(v)[i - 1]) * (1.0 + v[i])
  {
    if |v| > 0 {
      assert v[..1][..0] == [];
      assert Growth(v[..1]) == 1.0 + v[0];
    }
    forall i | 0 < i < |v|
      ensures 100.0 + Compounded(v)[i] == (100.0 + Compounded(v)[i - 1]) * (1.0 + v[i])
    {
      assert v[..i + 1][..i] == v[..i];
      var before, after := Growth(v[..i]), Growth(v[..i + 1]);
      assert after == before * (1.0 + v[i]);
      assert 100.0 + Compounded(v)[i] == 100.0 * after;
      assert 100.0 + Compounded(v)[i - 1] == 100.0 * before;
    }
  }

  /** With no negative rate, the compounded return never trails the linear one. */
  lemma CompoundedDominatesLinear(v: seq<real>)
    requires forall k :: 0 <= k < |v| ==> v[k] >= 0.0
    ensures forall i :: 0 <= i < |v| ==> Compounded(v)[i] >= Linear(v)[i]
  {
    forall i | 0 <= i < |v|
      ensures Compounded(v)[i] >= Linear(v)[i]
    {
      GrowthDominatesSum(v[..i + 1]);
    }
  }

  /** Compounding a series that continues `a` with `b` carries on from the
      growth `a` reached: 100 + c[|a| + i] == Growth(a) * (100 + c_b[i]), where
      c_b is the compounded series of `b` alone. */
  lemma {:induction false} CompoundedAppend(a: seq<real>, b: seq<real>)
    ensures forall i :: 0 <= i < |b| ==>
      100.0 + Compounded(a + b)[|a| + i] == Growth(a) * (100.0 + Compounded(b)[i])
  {
    forall i | 0 <= i < |b|
      ensures 100.0 + Compounded(a + b)[|a| + i] == Growth(a) * (100.0 + Compounded(b)[i])
    {
      CompoundedAppendAt(a, b, i);
    }
  }

  /** CompoundedAppend at one index of `b`. */
  lemma {:induction false} CompoundedAppendAt(a: seq<real>, b: seq<real>, i: nat)
    requires i < |b|
    ensures 100.0 + Compounded(a + b)[|a| + i] == Growth(a) * (100.0 + Compounded(b)[i])
  {
    assert (a + b)[..|a| + i + 1] == a + b[..i + 1];
    GrowthAppend(a, b[..i + 1]);
    var g, part := Growth(a), Growth(b[..i + 1]);
    var x, y := Compounded(a + b)[|a| + i], Compounded(b)[i];
    assert x == 100.0 * (g * part - 1.0);
    assert y == 100.0 * (part - 1.0);
    assert g * (100.0 + y) == g * (100.0 * part);
  }

  /** The incremental computation of the linear series: one running total,
      one output element per input rate. */
  method LinearByRunningTotal(v: seq<real>) returns (r: seq<real>)
    ensures r == Linear(v)
  {
    r := [];
    var total := 0.0;
    var i := 0;
    while i < |v|
      invariant 0 <= i <= |v|
      invariant total == Sum(v[..i])
      invariant |r| == i
      invariant forall k :: 0 <= k < i ==> r[k] == 100.0 * Sum(v[..k + 1])
    {
      assert v[..i + 1][..i] == v[..i];
      total := total + v[i];
      r := r + [100.0 * total];
      i := i + 1;
    }
  }

  /** The incremental computation of the compounded series: one running product
      of growth factors, one output element per input rate. */
  method CompoundedByRunningProduct(v: seq<real>) returns (r: seq<real>)
    ensures r == Compounded(v)
  {
    r := [];
    var product := 1.0;
    var i := 0;
    while i < |v|
      invariant 0 <= i <= |v|
      invariant product == Growth(v[..i])
      invariant |r| == i
      invariant forall k :: 0 <= k < i ==> r[k] == 100.0 * (Growth(v[..k + 1]) - 1.0)
    {
      assert v[..i + 1][..i] == v[..i];
      product := product * (1.0 + v[i]);
      r := r + [100.0 * (product - 1.0)];
      i := i + 1;
    }
  }

  /** The rates 1%, -0.5%, 2% give the linear series 1, 0.5, 2.5 percent. */
  lemma LinearExample()
    ensures Linear([0.01, -0.005, 0.02]) == [1.0, 0.5, 2.5]
  {
    var v := [0.01, -0.005, 0.02];
    assert v[..1] == [0.01] && v[..1][..0] == [];
    assert v[..2] == [0.01, -0.005] && v[..2][..1] == v[..1];
    assert v[..3] == v && v[..3][..2] == v[..2];
    assert Sum(v[..1]) == 0.01;
    assert Sum(v[..2]) == 0.005;
    assert Sum(v[..3]) == 0.025;
    var r := Linear(v);
    assert r[0] == 1.0 && r[1] == 0.5 && r[2] == 2.5;
  }

  /** The same rates compound to 1, 0.495 and 2.5049 percent. */
  lemma CompoundedExample()
    ensures Compounded([0.01, -0.005, 0.02]) == [1.0, 0.495, 2.5049]
  {
    var v := [0.01, -0.005, 0.02];
    assert v[..1] == [0.01] && v[..1][..0] == [];
    assert v[..2] == [0.01, -0.005] && v[..2][..1] == v[..1];
    assert v[..3] == v && v[..3][..2] == v[..2];
    assert Growth(v[..1]) == 1.01;
    assert Growth(v[..2]) == 1.00495;
    assert Growth(v[..3]) == 1.025049;
    var r := Compounded(v);
    assert r[0] == 1.0 && r[1] == 0.495 && r[2] == 2.5049;
  }
}
