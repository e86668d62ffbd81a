/** The series reads: aggregates, query aggregates and profile aggregates of a transaction
    type (and optionally a transaction name) over a range, stored tier first and live tier
    after it, with the not-yet-rolled-up tail folded into buckets for the aggregate chart at
    rollup level 1. Also the trace-existence queries, which dispatch on the name. */
module Series {
  import opened Wrappers
  import opened Aggregates
  import opened Rollup
  import opened Ranges

  // ---------------------------------------------------------------------------------------
  // The live tier

  function AggregatesOf(c: IntervalCollector): map<AggregateKey, Aggregate>
  {
    c.aggregates
  }

  function QueryAggregatesOf(c: IntervalCollector): map<AggregateKey, QueryAggregate>
  {
    c.queryAggregates
  }

  function ProfileAggregatesOf(c: IntervalCollector): map<AggregateKey, ProfileAggregate>
  {
    c.profileAggregates
  }

  /** The live items of a key that are present, in collector order; `items` picks which of a
      collector's live maps is read. */
  function LiveItems<T>(collectors: seq<IntervalCollector>, key: AggregateKey,
                        items: IntervalCollector -> map<AggregateKey, Timed<T>>): seq<Timed<T>>
  {
    if collectors == [] then []
    else
      var last := items(collectors[|collectors| - 1]);
      LiveItems(collectors[..|collectors| - 1], key, items) +
      (if key in last then [last[key]] else [])
  }

  /** At most one item per collector; each item is some collector's live item for the key;
      every collector that has one contributes it. */
  lemma {:induction false} LiveItemsExact<T>(collectors: seq<IntervalCollector>, key: AggregateKey,
                                             items: IntervalCollector -> map<AggregateKey, Timed<T>>)
    ensures |LiveItems(collectors, key, items)| <= |collectors|
    ensures forall k :: 0 <= k < |LiveItems(collectors, key, items)| ==>
              exists c :: 0 <= c < |collectors| && key in items(collectors[c]) &&
                          LiveItems(collectors, key, items)[k] == items(collectors[c])[key]
    ensures forall c :: 0 <= c < |collectors| && key in items(collectors[c]) ==>
              items(collectors[c])[key] in LiveItems(collectors, key, items)
  {
    if collectors != [] {
      var init := collectors[..|collectors| - 1];
      var last := collectors[|collectors| - 1];
      LiveItemsExact(init, key, items);
      var r := LiveItems(collectors, key, items);
      var prev := LiveItems(init, key, items);
      var lastItems := items(last);
      assert r == prev + (if key in lastItems then [lastItems[key]] else []);
      forall k | 0 <= k < |r|
        ensures exists c :: 0 <= c < |collectors| && key in items(collectors[c]) &&
                            r[k] == items(collectors[c])[key]
      {
        if k < |prev| {
          assert r[k] == prev[k];
          var c :| 0 <= c < |init| && key in items(init[c]) && prev[k] == items(init[c])[key];
          assert collectors[c] == init[c];
        } else {
          assert r[k] == items(collectors[|collectors| - 1])[key];
        }
      }
      forall c | 0 <= c < |collectors| && key in items(collectors[c])
        ensures items(collectors[c])[key] in r
      {
        if c < |init| {
          assert collectors[c] == init[c];
          var j :| 0 <= j < |prev| && prev[j] == items(init[c])[key];
          assert r[j] == prev[j];
        }
      }
    }
  }

  /** getLiveAggregates, getLiveQueryAggregates and getLiveProfileAggregates: one loop over
      the collectors keeping each present live item. */
  method GetLive<T>(collectors: seq<IntervalCollector>, key: AggregateKey,
                    items: IntervalCollector -> map<AggregateKey, Timed<T>>)
    returns (live: seq<Timed<T>>)
    ensures live == LiveItems(collectors, key, items)
  {
    live := [];
    for i := 0 to |collectors|
      invariant live == LiveItems(collectors[..i], key, items)
    {
      assert collectors[..i + 1][..i] == collectors[..i];
      var liveItems := items(collectors[i]);
      if key in liveItems {
        live := live + [liveItems[key]];
      }
    }
    assert collectors[..|collectors|] == collectors;
  }

  // ---------------------------------------------------------------------------------------
  // The tail that has not been rolled up yet

  /** The start of the level-0 tail read at level 1: a threshold before the revised bound,
      moved past the last stored rollup when there is one. */
  function RevisedFrom<T>(revisedTo: int, threshold: PosInt, rolledUp: seq<Timed<T>>)
    : (revisedFrom: int)
    ensures revisedFrom >= revisedTo - threshold
    ensures rolledUp != [] ==> revisedFrom > rolledUp[|rolledUp| - 1].captureTime
    ensures revisedFrom == revisedTo - threshold ||
            (rolledUp != [] && revisedFrom == rolledUp[|rolledUp| - 1].captureTime + 1)
  {
    if rolledUp == [] then revisedTo - threshold
    else
      var lastRolledUpTime := rolledUp[|rolledUp| - 1].captureTime;
      if revisedTo - threshold >= lastRolledUpTime + 1 then revisedTo - threshold
      else lastRolledUpTime + 1
  }

  /** No stored item is read twice at level 1: every item of the level-0 tail read lies after
      the last stored rollup, within a threshold of the revised bound, and not after it. */
  lemma TailAfterRolledUp<T>(rows: seq<StoredRow<T>>, transactionType: string,
                             transactionName: Option<string>, revisedTo: int, threshold: PosInt,
                             rolledUp: seq<Timed<T>>)
    ensures var tail := ReadStored(rows, transactionType, transactionName,
                                   RevisedFrom(revisedTo, threshold, rolledUp), revisedTo, 0);
            forall k :: 0 <= k < |tail| ==>
              revisedTo - threshold <= tail[k].captureTime <= revisedTo &&
              (rolledUp != [] ==> rolledUp[|rolledUp| - 1].captureTime < tail[k].captureTime)
  {
  }

  // ---------------------------------------------------------------------------------------
  // The three series

  /** What the aggregate series holds: at level 0 the stored aggregates up to the revised
      bound followed by the live ones; at level 1 the stored rollups unchanged followed by
      the fold of the level-0 tail and the live aggregates, the totals of the result being
      those of the three parts. */
  ghost predicate IsAggregateSeries(svc: Service, transactionType: string,
                                    transactionName: Option<string>, from: int, to: int,
                                    aggregates: seq<Aggregate>)
  {
    var collectors := svc.OrderedIntervalCollectorsInRange(from, to);
    var revisedTo := GetRevisedTo(to, collectors);
    var level := GetRollupLevel(from, to, svc.rollupThresholdMillis);
    var stored := ReadStored(svc.dao.aggregates, transactionType, transactionName, from,
                             revisedTo, level);
    var live := LiveItems(collectors, AggregateKey(transactionType, transactionName), AggregatesOf);
    var tail := ReadStored(svc.dao.aggregates, transactionType, transactionName,
                           RevisedFrom(revisedTo, svc.rollupThresholdMillis, stored), revisedTo, 0);
    (level == 0 ==> aggregates == stored + live) &&
    (level == 1 ==>
       aggregates == stored + RollUpSpec(tail + live, RollupTimes(svc.FixedRollupMillis())) &&
       SumTotals(aggregates) == Plus(SumTotals(stored), Plus(SumTotals(tail), SumTotals(live))))
  }

  /** getAggregates. */
  method GetAggregates(svc: Service, transactionType: string, transactionName: Option<string>,
                       from: int, to: int)
    returns (aggregates: seq<Aggregate>)
    ensures IsAggregateSeries(svc, transactionType, transactionName, from, to, aggregates)
  {
    var rollupLevel := GetRollupLevel(from, to, svc.rollupThresholdMillis);
    var collectors := svc.OrderedIntervalCollectorsInRange(from, to);
    var revisedTo := GetRevisedTo(to, collectors);
    var key := AggregateKey(transactionType, transactionName);
    aggregates := ReadStored(svc.dao.aggregates, transactionType, transactionName, from,
                             revisedTo, rollupLevel);
    var live := GetLive(collectors, key, AggregatesOf);
    if rollupLevel == 0 {
      aggregates := aggregates + live;
      return;
    }
    var revisedFrom := RevisedFrom(revisedTo, svc.rollupThresholdMillis, aggregates);
    var tail := ReadStored(svc.dao.aggregates, transactionType, transactionName, revisedFrom,
                           revisedTo, 0);
    var orderedNonRolledUp := tail + live;
    var rolledUp := RollUp(svc.FixedRollupMillis(), orderedNonRolledUp);
    RollUpConservesTotals(orderedNonRolledUp, RollupTimes(svc.FixedRollupMillis()));
    SumTotalsAppend(aggregates, rolledUp);
    SumTotalsAppend(tail, live);
    aggregates := aggregates + rolledUp;
  }

  /** What a query or profile series holds: the stored items up to the revised bound, then
      at level 1 the level-0 tail as it is, then the live items. */
  ghost predicate IsUnrolledSeries<T>(svc: Service, rows: seq<StoredRow<T>>,
                                      items: IntervalCollector -> map<AggregateKey, Timed<T>>,
                                      transactionType: string, transactionName: Option<string>,
                                      from: int, to: int, series: seq<Timed<T>>)
  {
    var collectors := svc.OrderedIntervalCollectorsInRange(from, to);
    var revisedTo := GetRevisedTo(to, collectors);
    var level := GetRollupLevel(from, to, svc.rollupThresholdMillis);
    var stored := ReadStored(rows, transactionType, transactionName, from, revisedTo, level);
    var live := LiveItems(collectors, AggregateKey(transactionType, transactionName), items);
    var tail := ReadStored(rows, transactionType, transactionName,
                           RevisedFrom(revisedTo, svc.rollupThresholdMillis, stored), revisedTo, 0);
    (level == 0 ==> series == stored + live) &&
    (level == 1 ==> series == stored + tail + live)
  }

  /** The common body of getQueryAggregates and getProfileAggregates. */
  method GetUnrolledSeries<T>(svc: Service, rows: seq<StoredRow<T>>,
                              items: IntervalCollector -> map<AggregateKey, Timed<T>>,
                              transactionType: string, transactionName: Option<string>,
                              from: int, to: int)
    returns (series: seq<Timed<T>>)
    ensures IsUnrolledSeries(svc, rows, items, transactionType, transactionName, from, to, series)
  {
    var rollupLevel := GetRollupLevel(from, to, svc.rollupThresholdMillis);
    var collectors := svc.OrderedIntervalCollectorsInRange(from, to);
    var revisedTo := GetRevisedTo(to, collectors);
    var key := AggregateKey(transactionType, transactionName);
    series := ReadStored(rows, transactionType, transactionName, from, revisedTo, rollupLevel);
    var live := GetLive(collectors, key, items);
    if rollupLevel == 0 {
      series := series + live;
      return;
    }
    var revisedFrom := RevisedFrom(revisedTo, svc.rollupThresholdMillis, series);
    var tail := ReadStored(rows, transactionType, transactionName, revisedFrom, revisedTo, 0);
    series := series + (tail + live);
    assert series == (series[..|series| - |tail + live|]) + tail + live;
  }

  /** getQueryAggregates. */
  method GetQueryAggregates(svc: Service, transactionType: string,
                            transactionName: Option<string>, from: int, to: int)
    returns (queryAggregates: seq<QueryAggregate>)
    ensures IsUnrolledSeries(svc, svc.dao.queryAggregates, QueryAggregatesOf, transactionType,
                             transactionName, from, to, queryAggregates)
  {
    queryAggregates := GetUnrolledSeries(svc, svc.dao.queryAggregates, QueryAggregatesOf,
                                         transactionType, transactionName, from, to);
  }

  /** getProfileAggregates. */
  method GetProfileAggregates(svc: Service, transactionType: string,
                              transactionName: Option<string>, from: int, to: int)
    returns (profileAggregates: seq<ProfileAggregate>)
    ensures IsUnrolledSeries(svc, svc.dao.profileAggregates, ProfileAggregatesOf, transactionType,
                             transactionName, from, to, profileAggregates)
  {
    profileAggregates := GetUnrolledSeries(svc, svc.dao.profileAggregates, ProfileAggregatesOf,
                                           transactionType, transactionName, from, to);
  }

  // ---------------------------------------------------------------------------------------
  // Trace existence

  /** shouldHaveTraces: the overall query without a name, the per-transaction one with. */
  function ShouldHaveTraces(dao: AggregateDao, transactionType: string,
                            transactionName: Option<string>, from: int, to: int): bool
  {
    match transactionName
    case None => dao.shouldHaveOverallTraces(transactionType, from, to)
    case Some(name) => dao.shouldHaveTransactionTraces(transactionType, name, from, to)
  }

  /** shouldHaveErrorTraces: the same dispatch over the error-trace queries. */
  function ShouldHaveErrorTraces(dao: AggregateDao, transactionType: string,
                                 transactionName: Option<string>, from: int, to: int): bool
  {
    match transactionName
    case None => dao.shouldHaveOverallErrorTraces(transactionType, from, to)
    case Some(name) => dao.shouldHaveTransactionErrorTraces(transactionType, name, from, to)
  }

  /** The answer for a name-less request depends only on the overall query, and the answer
      for a named request only on the per-transaction query: two DAOs that agree on the
      query the dispatch selects give the same answer. */
  lemma ShouldHaveTracesDispatch(dao1: AggregateDao, dao2: AggregateDao, transactionType: string,
                                 transactionName: Option<string>, from: int, to: int)
    requires transactionName.None? ==>
               dao1.shouldHaveOverallTraces(transactionType, from, to) ==
               dao2.shouldHaveOverallTraces(transactionType, from, to)
    requires transactionName.Some? ==>
               dao1.shouldHaveTransactionTraces(transactionType, transactionName.value, from, to) ==
               dao2.shouldHaveTransactionTraces(transactionType, transactionName.value, from, to)
    ensures ShouldHaveTraces(dao1, transactionType, transactionName, from, to) ==
            ShouldHaveTraces(dao2, transactionType, transactionName, from, to)
  {
  }

  lemma ShouldHaveErrorTracesDispatch(dao1: AggregateDao, dao2: AggregateDao,
                                      transactionType: string, transactionName: Option<string>,
                                      from: int, to: int)
    requires transactionName.None? ==>
               dao1.shouldHaveOverallErrorTraces(transactionType, from, to) ==
               dao2.shouldHaveOverallErrorTraces(transactionType, from, to)
    requires transactionName.Some? ==>
               dao1.shouldHaveTransactionErrorTraces(transactionType, transactionName.value, from, to) ==
               dao2.shouldHaveTransactionErrorTraces(transactionType, transactionName.value, from, to)
    ensures ShouldHaveErrorTraces(dao1, transactionType, transactionName, from, to) ==
            ShouldHaveErrorTraces(dao2, transactionType, transactionName, from, to)
  {
  }

  /** A name-less request is answered by the overall trace query and a named one by the
      per-transaction trace query of that name; the error-trace queries are never consulted. */
  lemma ShouldHaveTracesSelects(dao: AggregateDao, transactionType: string,
                                transactionName: Option<string>, from: int, to: int)
    ensures transactionName.None? ==>
              ShouldHaveTraces(dao, transactionType, transactionName, from, to) ==
              dao.shouldHaveOverallTraces(transactionType, from, to)
    ensures transactionName.Some? ==>
              ShouldHaveTraces(dao, transactionType, transactionName, from, to) ==
              dao.shouldHaveTransactionTraces(transactionType, transactionName.value, from, to)
    ensures forall overall: (string, int, int) -> bool, named: (string, string, int, int) -> bool ::
              ShouldHaveTraces(dao.(shouldHaveOverallErrorTraces := overall,
                                    shouldHaveTransactionErrorTraces := named),
                               transactionType, transactionName, from, to) ==
              ShouldHaveTraces(dao, transactionType, transactionName, from, to)
  {
  }

  /** The same for the error traces: a name-less request is answered by the overall
      error-trace query, a named one by the per-transaction error-trace query, and the plain
      trace queries are never consulted. */
  lemma ShouldHaveErrorTracesSelects(dao: AggregateDao, transactionType: string,
                                     transactionName: Option<string>, from: int, to: int)
    ensures transactionName.None? ==>
              ShouldHaveErrorTraces(dao, transactionType, transactionName, from, to) ==
              dao.shouldHaveOverallErrorTraces(transactionType, from, to)
    ensures transactionName.Some? ==>
              ShouldHaveErrorTraces(dao, transactionType, transactionName, from, to) ==
              dao.shouldHaveTransactionErrorTraces(transactionType, transactionName.value, from, to)
    ensures forall overall: (string, int, int) -> bool, named: (string, string, int, int) -> bool ::
              ShouldHaveErrorTraces(dao.(shouldHaveOverallTraces := overall,
                                         shouldHaveTransactionTraces := named),
                                    transactionType, transactionName, from, to) ==
              ShouldHaveErrorTraces(dao, transactionType, transactionName, from, to)
  {
  }
}
