/** The query service's configuration and the two range helpers every read starts with: the
    rollup level chosen from the width of the range, and the upper bound of the stored read
    that keeps the stored and the live tier apart. */
module Ranges {
  import opened Wrappers
  import opened Aggregates
  import opened Rollup

  /** Collectors ordered by end time, as the live aggregate collector reports them. */
  ghost predicate OrderedByEndTime(collectors: seq<IntervalCollector>)
  {
    forall i, j :: 0 <= i < j < |collectors| ==> collectors[i].endTime <= collectors[j].endTime
  }

  /** The live aggregate collector's range query, whose promise is that the interval
      collectors it returns are ordered by end time. */
  type CollectorsInRange = inRange: (int, int) -> seq<IntervalCollector>
    | forall from, to :: OrderedByEndTime(inRange(from, to))
    witness (from: int, to: int) => []

  /** The service: the aggregate DAO, the live aggregate collector (absent when the service
      runs without one), the DAO's rollup threshold and the fixed rollup width in seconds. */
  datatype Service = Service(
    dao: AggregateDao,
    aggregateCollector: Option<CollectorsInRange>,
    rollupThresholdMillis: PosInt,
    fixedRollupSeconds: PosInt)
  {
    /** The constructor multiplies the width in seconds by 1000. */
    function FixedRollupMillis(): PosInt
    {
      fixedRollupSeconds * 1000
    }

    /** getOrderedIntervalCollectorsInRange: no collectors without a live aggregate collector,
        otherwise what it reports for the range; either way ordered by end time. */
    function OrderedIntervalCollectorsInRange(from: int, to: int): (r: seq<IntervalCollector>)
      ensures aggregateCollector.None? ==> r == []
      ensures aggregateCollector.Some? ==> r == aggregateCollector.value(from, to)
      ensures OrderedByEndTime(r)
    {
      match aggregateCollector
      case None => []
      case Some(inRange) => inRange(from, to)
    }
  }

  /** getRollupLevel: level 0 for a range no wider than the threshold, level 1 otherwise. */
  function GetRollupLevel(from: int, to: int, threshold: PosInt): (level: nat)
    ensures level <= 1
    ensures level == 0 <==> to - from <= threshold
  {
    if to - from <= threshold then 0 else 1
  }

  /** A wider range never selects a finer level. */
  lemma RollupLevelMonotone(from1: int, to1: int, from2: int, to2: int, threshold: PosInt)
    requires to1 - from1 <= to2 - from2
    ensures GetRollupLevel(from1, to1, threshold) <= GetRollupLevel(from2, to2, threshold)
  {
  }

  /** getRevisedTo: the requested bound when nothing is live, otherwise one millisecond before
      the end of the first live interval (the stored read's bound is inclusive). */
  function GetRevisedTo(to: int, orderedIntervalCollectors: seq<IntervalCollector>): (r: int)
    ensures orderedIntervalCollectors == [] ==> r == to
    ensures orderedIntervalCollectors != [] ==> r < orderedIntervalCollectors[0].endTime
  {
    if orderedIntervalCollectors == [] then to else orderedIntervalCollectors[0].endTime - 1
  }

  /** No double counting: a stored read bounded by the revised bound returns only items
      captured before every live interval ends, and the revised bound never exceeds the
      first live interval's last millisecond. */
  lemma {:induction false} StoredReadEndsBeforeLive<T>(rows: seq<StoredRow<T>>, transactionType: string,
                                      transactionName: Option<string>, from: int, to: int,
                                      rollupLevel: nat, collectors: seq<IntervalCollector>)
    requires OrderedByEndTime(collectors)
    ensures var stored := ReadStored(rows, transactionType, transactionName, from,
                                     GetRevisedTo(to, collectors), rollupLevel);
            forall k, c :: 0 <= k < |stored| && 0 <= c < |collectors| ==>
              stored[k].captureTime < collectors[c].endTime
  {
    var revisedTo := GetRevisedTo(to, collectors);
    var stored := ReadStored(rows, transactionType, transactionName, from, revisedTo, rollupLevel);
    forall k, c | 0 <= k < |stored| && 0 <= c < |collectors|
      ensures stored[k].captureTime < collectors[c].endTime
    {
      assert stored[k].captureTime <= revisedTo;
      assert collectors[0].endTime <= collectors[c].endTime;
    }
  }

  /** The service's reads keep the tiers apart: the stored part of any read, bounded by the
      revised bound of the collectors the service reports for the range, holds only items
      captured before every one of those live intervals ends. */
  lemma ServiceReadsKeepTiersApart<T>(svc: Service, rows: seq<StoredRow<T>>, transactionType: string,
                                      transactionName: Option<string>, from: int, to: int,
                                      rollupLevel: nat)
    ensures var collectors := svc.OrderedIntervalCollectorsInRange(from, to);
            var stored := ReadStored(rows, transactionType, transactionName, from,
                                     GetRevisedTo(to, collectors), rollupLevel);
            forall k, c :: 0 <= k < |stored| && 0 <= c < |collectors| ==>
              stored[k].captureTime < collectors[c].endTime
  {
    var collectors := svc.OrderedIntervalCollectorsInRange(from, to);
    StoredReadEndsBeforeLive(rows, transactionType, transactionName, from, to, rollupLevel,
                             collectors);
  }
}
