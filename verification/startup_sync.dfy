/**
  The synchronisation pass the service runs once at start-up. For every
  trading symbol, in the order the symbol enumeration lists them, and for the
  funding-rate family and then the open-interest family, it asks the store for
  the newest stored timestamp of that series. If there is one, it catches up
  from that cursor; if the series is empty, it backfills the full history.

  Reading the cursor, fetching from the exchange and writing the store are
  calls whose bodies are not part of this model, so the pass is modelled as
  the plan of actions it issues, computed from the cursors the store holds.
 */
module StartupSync {
  import opened Series

  datatype Option<T> = None | Some(value: T)

  /** The metric families the start-up pass synchronises. */
  datatype Family = Funding | OpenInterest

  /** One decision of the pass for one (symbol, family) series. */
  datatype Action<S> =
    | CatchUp(symbol: S, family: Family, cursor: Timestamp)  // fetch what is newer than `cursor`
    | Fill(symbol: S, family: Family)                        // fetch and store the whole history

  /** The newest stored timestamp of every series that has samples; a series
      with no samples has no entry. */
  type Cursors<S(==)> = map<(S, Family), Timestamp>

  /** The most-recent-update query of the store: the series' cursor, or none
      when the series is empty. */
  function MostRecent<S(==)>(cursors: Cursors<S>, symbol: S, family: Family): Option<Timestamp>
  {
    if (symbol, family) in cursors then Some(cursors[(symbol, family)]) else None
  }

  /** The cursor an action starts from, if any. */
  function StartCursor<S>(a: Action<S>): Option<Timestamp>
  {
    match a
    case CatchUp(_, _, t) => Some(t)
    case Fill(_, _) => None
  }

  /** The decision for one series: catch up from the stored cursor when there
      is one, backfill otherwise. */
  function Decide<S(==)>(cursors: Cursors<S>, symbol: S, family: Family): (a: Action<S>)
    ensures a.symbol == symbol && a.family == family
    ensures a.CatchUp? <==> (symbol, family) in cursors
    ensures a.CatchUp? ==> a.cursor == cursors[(symbol, family)]
  {
    match MostRecent(cursors, symbol, family)
    case Some(t) => CatchUp(symbol, family, t)
    case None => Fill(symbol, family)
  }

  /** The decision loses nothing of what the store reported: the cursor the
      action starts from is exactly the stored cursor, and there is none
      exactly when the series is empty. */
  lemma DecideKeepsCursor<S>(cursors: Cursors<S>, symbol: S, family: Family)
    ensures StartCursor(Decide(cursors, symbol, family)) == MostRecent(cursors, symbol, family)
  {
  }

  /** The whole pass: two decisions per symbol, funding first and open
      interest second, symbols in enumeration order. */
  function Plan<S(==)>(cursors: Cursors<S>, symbols: seq<S>): (actions: seq<Action<S>>)
    ensures |actions| == 2 * |symbols|
    ensures forall i :: 0 <= i < |symbols| ==>
      && actions[2 * i] == Decide(cursors, symbols[i], Funding)
      && actions[2 * i + 1] == Decide(cursors, symbols[i], OpenInterest)
  {
    if |symbols| == 0 then []
    else
      var last := symbols[|symbols| - 1];
      Plan(cursors, symbols[..|symbols| - 1])
        + [Decide(cursors, last, Funding), Decide(cursors, last, OpenInterest)]
  }

  /** The start-up loop itself, one symbol per iteration. */
  method SyncAtStartup<S(==)>(cursors: Cursors<S>, symbols: seq<S>) returns (actions: seq<Action<S>>)
    ensures |actions| == 2 * |symbols|
    ensures forall i :: 0 <= i < |symbols| ==>
      && actions[2 * i] == Decide(cursors, symbols[i], Funding)
      && actions[2 * i + 1] == Decide(cursors, symbols[i], OpenInterest)
    ensures actions == Plan(cursors, symbols)
  {
    actions := [];
    var i := 0;
    while i < |symbols|
      invariant 0 <= i <= |symbols|
      invariant actions == Plan(cursors, symbols[..i])
    {
      var symbol := symbols[i];
      var funding := MostRecent(cursors, symbol, Funding);
      if funding.Some? {
        actions := actions + [CatchUp(symbol, Funding, funding.value)];
      } else {
        actions := actions + [Fill(symbol, Funding)];
      }
      var openInterest := MostRecent(cursors, symbol, OpenInterest);
      if openInterest.Some? {
        actions := actions + [CatchUp(symbol, OpenInterest, openInterest.value)];
      } else {
        actions := actions + [Fill(symbol, OpenInterest)];
      }
      assert symbols[..i + 1][..i] == symbols[..i];
      i := i + 1;
    }
    assert symbols[..i] == symbols;
  }

  /** The order in which the pass visits the series: for each symbol in
      enumeration order, its funding series and then its open-interest series. */
  function Order<S>(symbols: seq<S>): (series: seq<(S, Family)>)
    ensures |series| == 2 * |symbols|
    ensures forall i :: 0 <= i < |symbols| ==>
      series[2 * i] == (symbols[i], Funding) && series[2 * i + 1] == (symbols[i], OpenInterest)
  {
    if |symbols| == 0 then []
    else
      var last := symbols[|symbols| - 1];
      Order(symbols[..|symbols| - 1]) + [(last, Funding), (last, OpenInterest)]
  }

  /** The decision for each series of a list, in order. */
  function Decisions<S(==)>(cursors: Cursors<S>, series: seq<(S, Family)>): seq<Action<S>>
  {
    seq(|series|, j requires 0 <= j < |series| => Decide(cursors, series[j].0, series[j].1))
  }

  /** The plan is the decision for each series in visiting order. */
  lemma PlanFollowsOrder<S>(cursors: Cursors<S>, symbols: seq<S>)
    ensures Plan(cursors, symbols) == Decisions(cursors, Order(symbols))
  {
    var plan, series := Plan(cursors, symbols), Order(symbols);
    forall j | 0 <= j < |plan|
      ensures plan[j] == Decide(cursors, series[j].0, series[j].1)
    {
      var i := j / 2;
      assert j == 2 * i || j == 2 * i + 1;
    }
  }

  /** How a call of the pass can raise: the most-recent-update read of a
      series, or its catch-up or fill call after the decision is made. */
  datatype Fault = ReadRaises | SyncRaises

  /** What a pass did: the actions it issued, and whether an exception ended it. */
  datatype Outcome<S> = Outcome(issued: seq<Action<S>>, aborted: bool)

  /** The position of the first series whose calls raise, or the length of
      the list when none does. */
  function FirstFault<S(==)>(faults: map<(S, Family), Fault>, series: seq<(S, Family)>): (k: nat)
    ensures k <= |series|
    ensures forall j :: 0 <= j < k ==> series[j] !in faults
    ensures k < |series| ==> series[k] in faults
  {
    if |series| == 0 then 0
    else if series[0] in faults then 0
    else 1 + FirstFault(faults, series[1..])
  }

  /** The pass over a list of series when some calls raise. The loop has no
      exception handler, so the first raising call ends the whole pass: the
      series before it are decided and synchronised, a failing read issues
      nothing more, and a failing sync has issued its own action. */
  function Run<S(==)>(cursors: Cursors<S>, faults: map<(S, Family), Fault>, series: seq<(S, Family)>): (o: Outcome<S>)
    ensures o.aborted <==> FirstFault(faults, series) < |series|
    ensures var k := FirstFault(faults, series);
      o.issued == Decisions(cursors, series[..k]) +
        (if k < |series| && faults[series[k]] == SyncRaises then [Decide(cursors, series[k].0, series[k].1)] else [])
  {
    if |series| == 0 then Outcome([], false)
    else
      var head := Decide(cursors, series[0].0, series[0].1);
      if series[0] in faults then
        Outcome(if faults[series[0]] == SyncRaises then [head] else [], true)
      else
        var rest := Run(cursors, faults, series[1..]);
        DecisionsCons(cursors, series, FirstFault(faults, series[1..]));
        Outcome([head] + rest.issued, rest.aborted)
  }

  /** Deciding the first k + 1 series is deciding the first one and then the
      next k. */
  lemma DecisionsCons<S>(cursors: Cursors<S>, series: seq<(S, Family)>, k: nat)
    requires k < |series|
    ensures Decisions(cursors, series[..k + 1]) ==
      [Decide(cursors, series[0].0, series[0].1)] + Decisions(cursors, series[1..][..k])
  {
    assert series[..k + 1] == [series[0]] + series[1..][..k];
  }

  /** A pass that raises issues a prefix of the plan: nothing out of order and
      nothing the plan does not contain. It is cut short exactly when the
      calls of some series raise, and it stops at the first such series. */
  lemma {:induction false} RunIssuesPlanPrefix<S>(cursors: Cursors<S>, faults: map<(S, Family), Fault>, symbols: seq<S>)
    ensures |Run(cursors, faults, Order(symbols)).issued| <= |Plan(cursors, symbols)|
    ensures Run(cursors, faults, Order(symbols)).issued ==
      Plan(cursors, symbols)[..|Run(cursors, faults, Order(symbols)).issued|]
    ensures Run(cursors, faults, Order(symbols)).aborted <==>
      exists j :: 0 <= j < |Order(symbols)| && Order(symbols)[j] in faults
  {
    var series := Order(symbols);
    var issued := Run(cursors, faults, series).issued;
    var k := FirstFault(faults, series);
    PlanFollowsOrder(cursors, symbols);
    var plan := Plan(cursors, symbols);
    assert issued == plan[..|issued|] by {
      if k < |series| && faults[series[k]] == SyncRaises {
        assert |issued| == k + 1;
      } else {
        assert |issued| == k;
      }
    }
    if k < |series| {
      assert series[k] in faults;
    }
  }

  /** When no call raises, the pass issues the whole plan and completes. */
  lemma RunWithoutFaults<S>(cursors: Cursors<S>, faults: map<(S, Family), Fault>, symbols: seq<S>)
    requires forall i :: 0 <= i < |symbols| ==>
      (symbols[i], Funding) !in faults && (symbols[i], OpenInterest) !in faults
    ensures Run(cursors, faults, Order(symbols)) == Outcome(Plan(cursors, symbols), false)
  {
    var series := Order(symbols);
    var k := FirstFault(faults, series);
    forall j | 0 <= j < |series|
      ensures series[j] !in faults
    {
      var i := j / 2;
      assert j == 2 * i || j == 2 * i + 1;
      assert i < |symbols|;
      assert series[j] == (symbols[i], Funding) || series[j] == (symbols[i], OpenInterest);
    }
    PlanFollowsOrder(cursors, symbols);
    assert series[..k] == series;
  }

  /** Every series of every symbol gets its decision somewhere in the plan. */
  lemma PlanCovers<S>(cursors: Cursors<S>, symbols: seq<S>, symbol: S, family: Family)
    requires symbol in symbols
    ensures exists j :: (0 <= j < |Plan(cursors, symbols)| &&
      Plan(cursors, symbols)[j] == Decide(cursors, symbol, family))
  {
    var i :| 0 <= i < |symbols| && symbols[i] == symbol;
    var j := if family == Funding then 2 * i else 2 * i + 1;
    assert Plan(cursors, symbols)[j] == Decide(cursors, symbol, family);
  }

  /** Every action of the plan is about a symbol of the enumeration. */
  lemma PlanOnlyEnumerated<S>(cursors: Cursors<S>, symbols: seq<S>)
    ensures forall a :: a in Plan(cursors, symbols) ==> a.symbol in symbols
  {
    var actions := Plan(cursors, symbols);
    forall a | a in actions
      ensures a.symbol in symbols
    {
      var j :| 0 <= j < |actions| && actions[j] == a;
      var i := j / 2;
      assert j == 2 * i || j == 2 * i + 1;
      assert a.symbol == symbols[i];
    }
  }

  /** With the symbols of an enumeration (no symbol listed twice), each series
      is decided exactly once: two actions about the same symbol and family
      are the same action of the plan. */
  lemma PlanDecidesEachSeriesOnce<S>(cursors: Cursors<S>, symbols: seq<S>, j: nat, k: nat)
    requires forall a, b :: 0 <= a < b < |symbols| ==> symbols[a] != symbols[b]
    requires j < |Plan(cursors, symbols)| && k < |Plan(cursors, symbols)|
    requires Plan(cursors, symbols)[j].symbol == Plan(cursors, symbols)[k].symbol
    requires Plan(cursors, symbols)[j].family == Plan(cursors, symbols)[k].family
    ensures j == k
  {
    var actions := Plan(cursors, symbols);
    var a, b := j / 2, k / 2;
    assert j == 2 * a || j == 2 * a + 1;
    assert k == 2 * b || k == 2 * b + 1;
    assert actions[j].symbol == symbols[a] && actions[k].symbol == symbols[b];
    assert a == b;
  }
}
