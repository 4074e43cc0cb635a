/**
  The record lists the three data endpoints build from a stored series before
  they are serialised: one record per zipped element, with the value the
  endpoint computes for it. Date labels and decimal rounding are presentation
  and are not part of the records here; a record keeps the raw timestamp and
  the exact value.
 */
module Endpoints {
  import opened Sums
  import opened Series
  import opened Cumulative
  import opened Windowing

  /** One record of `/funding_rates`: the rate in percent. */
  datatype FundingRecord = FundingRecord(date: Timestamp, fundingPercent: real)

  /** One record of `/funding_rates_cumulative`: both cumulative views in percent. */
  datatype CumulativeRecord = CumulativeRecord(date: Timestamp, compound: real, linear: real)

  /** One record of `/interest_rates_cumulative`: the compounded interest in percent. */
  datatype InterestRecord = InterestRecord(date: Timestamp, compound: real)

  /** `/funding_rates`: one record per stored sample, holding 100 times its rate. */
  method FundingRates(timestamps: seq<Timestamp>, rates: seq<real>) returns (data: seq<FundingRecord>)
    ensures |data| == Min(|timestamps|, |rates|)
    ensures |timestamps| == |rates| ==> |data| == |rates|
    ensures forall i :: 0 <= i < |data| ==> data[i] == FundingRecord(timestamps[i], 100.0 * rates[i])
  {
    var pairs := Zip(timestamps, rates);
    data := [];
    var i := 0;
    while i < |pairs|
      invariant 0 <= i <= |pairs|
      invariant |data| == i
      invariant forall k :: 0 <= k < i ==> data[k] == FundingRecord(timestamps[k], 100.0 * rates[k])
    {
      var (ts, value) := pairs[i];
      data := data + [FundingRecord(ts, 100.0 * value)];
      i := i + 1;
    }
  }

  /** `/funding_rates_cumulative`: one record per stored sample, holding the
      compounded and the linear cumulative funding up to and including it. */
  method FundingRatesCumulative(timestamps: seq<Timestamp>, rates: seq<real>) returns (data: seq<CumulativeRecord>)
    ensures |data| == Min(|timestamps|, |rates|)
    ensures |timestamps| == |rates| ==> |data| == |rates|
    ensures forall i :: 0 <= i < |data| ==>
      && data[i].date == timestamps[i]
      && data[i].compound == 100.0 * (Growth(rates[..i + 1]) - 1.0)
      && data[i].linear == 100.0 * Sum(rates[..i + 1])
  {
    var linear := LinearByRunningTotal(rates);
    var compound := CompoundedByRunningProduct(rates);
    var triples := Zip3(timestamps, compound, linear);
    data := [];
    var i := 0;
    while i < |triples|
      invariant 0 <= i <= |triples|
      invariant |data| == i
      invariant forall k :: 0 <= k < i ==> data[k] == CumulativeRecord(timestamps[k], compound[k], linear[k])
    {
      var (ts, c, l) := triples[i];
      data := data + [CumulativeRecord(ts, c, l)];
      i := i + 1;
    }
  }

  /** `/interest_rates_cumulative`: the interest series is aggregated into
      windows of eight samples, and there is one record per window, dated with
      the window's first timestamp and holding the compounded return of the
      window sums up to and including it. */
  method InterestRatesCumulative(timestamps: seq<Timestamp>, rates: seq<real>) returns (data: seq<InterestRecord>)
    ensures |data| == Min(|timestamps| / InterestWindow, |rates| / InterestWindow)
    ensures |timestamps| == |rates| ==> |data| == |rates| / InterestWindow
    ensures forall i :: 0 <= i < |data| ==>
      && data[i].date == timestamps[|timestamps| % InterestWindow + InterestWindow * i]
      && data[i].compound == 100.0 * (Growth(Aggregate(rates, InterestWindow)[..i + 1]) - 1.0)
  {
    var windowed := Aggregate(rates, InterestWindow);
    var labels := Thin(timestamps, InterestWindow);
    var compound := CompoundedByRunningProduct(windowed);
    data := InterestRecords(labels, compound);
  }

  /** The record-building loop of `/interest_rates_cumulative`: one record per
      zipped (label, compounded value) pair. */
  method InterestRecords(labels: seq<Timestamp>, compound: seq<real>) returns (data: seq<InterestRecord>)
    ensures |data| == Min(|labels|, |compound|)
    ensures forall i :: 0 <= i < |data| ==> data[i] == InterestRecord(labels[i], compound[i])
  {
    var pairs := Zip(labels, compound);
    data := [];
    var i := 0;
    while i < |pairs|
      invariant 0 <= i <= |pairs|
      invariant |data| == i
      invariant forall k :: 0 <= k < i ==> data[k] == InterestRecord(labels[k], compound[k])
    {
      var (ts, c) := pairs[i];
      data := data + [InterestRecord(ts, c)];
      i := i + 1;
    }
  }
}
