/**
  Fixed-window aggregation of an interest-rate series, as the
  `/interest_rates_cumulative` endpoint does it with window size 8 on a series
  of N samples. The leading N % w samples are dropped, so that only complete
  windows remain and they end exactly at the newest sample; each window of w
  consecutive values becomes one aggregate, labelled with the window's first
  timestamp.
  The window size is a parameter; `InterestWindow` is the size the service uses.
 */
module Windowing {
  import opened Sums

  /** The number of raw interest samples folded into one aggregate. */
  const InterestWindow: nat := 8

  /** reshape(-1, w).sum(axis=1): split a series whose length is a multiple of w
      into consecutive blocks of w and sum each block. */
  function BlockSums(s: seq<real>, w: nat): (r: seq<real>)
    requires w > 0 && |s| % w == 0
    decreases |s|
  {
    if |s| == 0 then []
    else
      BlockStep(|s|, w);
      [Sum(s[..w])] + BlockSums(s[w..], w)
  }

  /** w * a <= w * b whenever a <= b. */
  lemma MulMonotone(w: nat, a: nat, b: nat)
    requires a <= b
    ensures w * a <= w * b
  {
    assert w * b - w * a == w * (b - a);
  }

  /** A length of k whole windows leaves no remainder and makes k windows. */
  lemma WholeWindows(w: nat, k: nat)
    requires w > 0
    ensures (w * k) % w == 0 && (w * k) / w == k
  {
    var n := w * k;
    var q, r := n / w, n % w;
    assert n == w * q + r && 0 <= r < w;
    if q < k {
      MulMonotone(w, q + 1, k);
      assert false;
    } else if q > k {
      MulMonotone(w, k + 1, q);
      assert false;
    }
  }

  /** Dropping the leading n % w items leaves exactly n / w whole windows. */
  lemma TailWindows(n: nat, w: nat)
    requires w > 0
    ensures n % w <= n && n - n % w == w * (n / w)
    ensures (n - n % w) % w == 0
  {
    assert n == w * (n / w) + n % w;
    WholeWindows(w, n / w);
  }

  /** Taking one window off a non-empty whole number of windows leaves a whole
      number of windows. */
  lemma BlockStep(n: nat, w: nat)
    requires w > 0 && n > 0 && n % w == 0
    ensures w <= n && (n - w) % w == 0
  {
    var q := n / w;
    assert n == w * q;
    if q == 0 {
      assert false;
    }
    MulMonotone(w, 1, q);
    assert n - w == w * (q - 1);
    WholeWindows(w, q - 1);
  }

  /** On a series of k whole windows there are k block sums. */
  lemma {:induction false} BlockSumsLength(s: seq<real>, w: nat, k: nat)
    requires w > 0 && |s| == w * k
    ensures |s| % w == 0
    ensures |BlockSums(s, w)| == k
    decreases k
  {
    WholeWindows(w, k);
    if k > 0 {
      assert |s| - w == w * (k - 1);
      BlockSumsLength(s[w..], w, k - 1);
    }
  }

  /** On a series of k whole windows, block sum i covers s[w * i .. w * i + w). */
  lemma {:induction false} BlockSumsAt(s: seq<real>, w: nat, k: nat, i: nat)
    requires w > 0 && |s| == w * k && i < k
    ensures |s| % w == 0 && |BlockSums(s, w)| == k
    ensures w * i + w <= |s| && BlockSums(s, w)[i] == Sum(s[w * i .. w * i + w])
    decreases i
  {
    BlockSumsLength(s, w, k);
    MulMonotone(w, i + 1, k);
    if i > 0 {
      assert |s| - w == w * (k - 1);
      BlockSumsAt(s[w..], w, k - 1, i - 1);
      BlockStep(|s|, w);
      BlockSumsNext(s, w, i);
      WindowShift(s, w, i);
    } else {
      assert s[w * i .. w * i + w] == s[..w];
    }
  }

  /** Block sum i > 0 of a series is block sum i - 1 of the series without its
      first window. */
  lemma BlockSumsNext(s: seq<real>, w: nat, i: nat)
    requires w > 0 && |s| % w == 0 && w <= |s| && (|s| - w) % w == 0
    requires 0 < i < |BlockSums(s, w)|
    ensures BlockSums(s, w)[i] == BlockSums(s[w..], w)[i - 1]
  {
  }

  /** Window i - 1 of a series without its first window is window i of the series. */
  lemma WindowShift<T>(s: seq<T>, w: nat, i: nat)
    requires w > 0 && 0 < i && w * i + w <= |s|
    ensures w * (i - 1) + w <= |s| - w
    ensures s[w..][w * (i - 1) .. w * (i - 1) + w] == s[w * i .. w * i + w]
  {
    var j := w * (i - 1);
    assert w + j == w * i;
  }

  /** s[start::w]: every w-th element of a series, starting at `start`. */
  function Stride<T>(s: seq<T>, start: nat, w: nat): (r: seq<T>)
    requires w > 0
    ensures start >= |s| <==> r == []
    ensures start < |s| ==> r[0] == s[start]
    ensures forall x :: x in r ==> x in s
    decreases |s| - start
  {
    if start >= |s| then [] else [s[start]] + Stride(s, start + w, w)
  }

  /** When the distance from `start` to the end is k whole strides, the
      strided selection has k elements and element i is s[start + w * i]. */
  lemma {:induction false} StrideShape<T>(s: seq<T>, start: nat, w: nat, k: nat)
    requires w > 0 && start + w * k == |s|
    ensures |Stride(s, start, w)| == k
    ensures forall i :: 0 <= i < k ==> start + w * i < |s| && Stride(s, start, w)[i] == s[start + w * i]
    decreases k
  {
    if k > 0 {
      assert start + w * (k - 1) + w == |s|;
      StrideShape(s, start + w, w, k - 1);
      forall i | 0 <= i < k
        ensures start + w * i < |s| && Stride(s, start, w)[i] == s[start + w * i]
      {
        MulMonotone(w, i + 1, k);
        assert w * (i + 1) == w * i + w;
        if i > 0 {
          assert start + w + w * (i - 1) == start + w * i;
        }
      }
    }
  }

  /** values[N % w:].reshape(-1, w).sum(axis=1): one sum per complete,
      tail-aligned window. There are N / w of them (none when N < w), and
      aggregate i sums values[N % w + w * i .. N % w + w * i + w). */
  function Aggregate(values: seq<real>, w: nat): (r: seq<real>)
    requires w > 0
    ensures |r| == |values| / w
    ensures forall i :: 0 <= i < |r| ==>
      |values| % w + w * i + w <= |values| &&
      r[i] == Sum(values[|values| % w + w * i .. |values| % w + w * i + w])
  {
    TailWindows(|values|, w);
    AggregateShape(values, w);
    BlockSums(values[|values| % w..], w)
  }

  /** The shape of the blocks summed after the leading partial window is dropped. */
  lemma AggregateShape(values: seq<real>, w: nat)
    requires w > 0
    ensures (|values| - |values| % w) % w == 0
    ensures |BlockSums(values[|values| % w..], w)| == |values| / w
    ensures forall i :: 0 <= i < |values| / w ==>
      |values| % w + w * i + w <= |values| &&
      BlockSums(values[|values| % w..], w)[i] == Sum(values[|values| % w + w * i .. |values| % w + w * i + w])
  {
    var off, k := |values| % w, |values| / w;
    var tail := values[off..];
    TailWindows(|values|, w);
    BlockSumsLength(tail, w, k);
    forall i | 0 <= i < k
      ensures off + w * i + w <= |values| && BlockSums(tail, w)[i] == Sum(values[off + w * i .. off + w * i + w])
    {
      BlockSumsAt(tail, w, k, i);
      assert tail[w * i .. w * i + w] == values[off + w * i .. off + w * i + w];
    }
  }

  /** timestamps[N % w::w]: the first timestamp of every complete,
      tail-aligned window. There are N / w of them, and element i is
      timestamps[N % w + w * i]. */
  function Thin<T>(timestamps: seq<T>, w: nat): (r: seq<T>)
    requires w > 0
    ensures |r| == |timestamps| / w
    ensures forall i :: 0 <= i < |r| ==>
      |timestamps| % w + w * i < |timestamps| && timestamps[|timestamps| % w + w * i] == r[i]
  {
    ThinShape(timestamps, w);
    Stride(timestamps, |timestamps| % w, w)
  }

  /** The shape of the strided selection that starts after the leading partial window. */
  lemma ThinShape<T>(timestamps: seq<T>, w: nat)
    requires w > 0
    ensures |Stride(timestamps, |timestamps| % w, w)| == |timestamps| / w
    ensures forall i :: 0 <= i < |timestamps| / w ==>
      |timestamps| % w + w * i < |timestamps| &&
      timestamps[|timestamps| % w + w * i] == Stride(timestamps, |timestamps| % w, w)[i]
  {
    var off, k := |timestamps| % w, |timestamps| / w;
    TailWindows(|timestamps|, w);
    assert off + w * k == |timestamps|;
    StrideShape(timestamps, off, w, k);
  }

  /** Prepending the first block's sum to the block sums of the rest keeps the total. */
  lemma PrependBlock(s: seq<real>, w: nat, rest: seq<real>)
    requires w <= |s| && Sum(rest) == Sum(s[w..])
    ensures Sum([Sum(s[..w])] + rest) == Sum(s)
  {
    assert s == s[..w] + s[w..];
    SumAppend(s[..w], s[w..]);
    SumAppend([Sum(s[..w])], rest);
    assert [Sum(s[..w])] == [] + [Sum(s[..w])];
  }

  /** Summing a series block by block gives its total. */
  lemma {:induction false} BlockSumsTotal(s: seq<real>, w: nat)
    requires w > 0 && |s| % w == 0
    ensures Sum(BlockSums(s, w)) == Sum(s)
    decreases |s|
  {
    if |s| > 0 {
      BlockStep(|s|, w);
      BlockSumsTotal(s[w..], w);
      PrependBlock(s, w, BlockSums(s[w..], w));
    }
  }

  /** Aggregation discards exactly the leading partial window: the aggregates
      add up to the sum of values[N % w ..]. */
  lemma AggregateTotal(values: seq<real>, w: nat)
    requires w > 0
    ensures Sum(Aggregate(values, w)) == Sum(values[|values| % w..])
  {
    TailWindows(|values|, w);
    BlockSumsTotal(values[|values| % w..], w);
  }

  /** The value windows and their timestamp labels line up one to one: for
      parallel series the thinned timestamps are as many as the aggregates,
      and label i is the timestamp of the first sample summed into aggregate i. */
  lemma AggregateAligned<T>(timestamps: seq<T>, values: seq<real>, w: nat)
    requires w > 0 && |timestamps| == |values|
    ensures |Thin(timestamps, w)| == |Aggregate(values, w)|
    ensures forall i :: 0 <= i < |Aggregate(values, w)| ==>
      var first := |values| % w + w * i;
      first < |timestamps| &&
      Thin(timestamps, w)[i] == timestamps[first] &&
      Aggregate(values, w)[i] == Sum(values[first .. first + w])
  {
  }

  /** A series of ten samples with windows of eight: the first two samples are
      dropped, one aggregate is produced, and it carries the third timestamp. */
  lemma TenSamplesExample<T>(timestamps: seq<T>, values: seq<real>)
    requires |timestamps| == 10 && |values| == 10
    ensures Thin(timestamps, InterestWindow) == [timestamps[2]]
    ensures Aggregate(values, InterestWindow) == [Sum(values[2..10])]
  {
  }
}
