/**
  Stored series as the endpoints receive them: a sequence of timestamps and a
  parallel sequence of rates, and Python's `zip`, which pairs them up
  element by element and stops at the end of the shorter input.
 */
module Series {

  /** An instant reported by the exchange (a funding settlement, an interest
      accrual tick), kept abstract as an integer. */
  type Timestamp = int

  function Min(a: nat, b: nat): nat
  {
    if a <= b then a else b
  }

  /** zip(a, b): the i-th pair holds the i-th elements; the shorter input
      decides the length. */
  function Zip<A, B>(a: seq<A>, b: seq<B>): (r: seq<(A, B)>)
    ensures |r| == Min(|a|, |b|)
    ensures forall i :: 0 <= i < |r| ==> r[i] == (a[i], b[i])
  {
    if |a| == 0 || |b| == 0 then [] else [(a[0], b[0])] + Zip(a[1..], b[1..])
  }

  /** zip(a, b, c), for three inputs. */
  function Zip3<A, B, C>(a: seq<A>, b: seq<B>, c: seq<C>): (r: seq<(A, B, C)>)
    ensures |r| == Min(Min(|a|, |b|), |c|)
    ensures forall i :: 0 <= i < |r| ==> r[i] == (a[i], b[i], c[i])
  {
    if |a| == 0 || |b| == 0 || |c| == 0 then []
    else [(a[0], b[0], c[0])] + Zip3(a[1..], b[1..], c[1..])
  }

  function Firsts<A, B>(pairs: seq<(A, B)>): (r: seq<A>)
    ensures |r| == |pairs|
  {
    seq(|pairs|, i requires 0 <= i < |pairs| => pairs[i].0)
  }

  function Seconds<A, B>(pairs: seq<(A, B)>): (r: seq<B>)
    ensures |r| == |pairs|
  {
    seq(|pairs|, i requires 0 <= i < |pairs| => pairs[i].1)
  }

  /** Zipping two series of equal length loses nothing: unzipping gives both
      back. */
  lemma ZipUnzip<A, B>(a: seq<A>, b: seq<B>)
    requires |a| == |b|
    ensures Firsts(Zip(a, b)) == a
    ensures Seconds(Zip(a, b)) == b
  {
  }

  /** Unzipping and zipping again rebuilds any sequence of pairs. */
  lemma UnzipZip<A, B>(pairs: seq<(A, B)>)
    ensures Zip(Firsts(pairs), Seconds(pairs)) == pairs
  {
  }
}
