/** The values the query merge works on: aggregates and their totals, transaction summaries,
    the stored tier (rows of the aggregate tables, read by capture-time range and rollup
    level) and the live tier (the interval collectors that have not been written yet). */
module Aggregates {
  import opened Wrappers

  /** The eight additive counters of an aggregate. */
  datatype Totals = Totals(
    totalMicros: int,
    errorCount: int,
    transactionCount: int,
    totalCpuMicros: int,
    totalBlockedMicros: int,
    totalWaitedMicros: int,
    totalAllocatedKBytes: int,
    traceCount: int)

  const ZeroTotals := Totals(0, 0, 0, 0, 0, 0, 0, 0)

  /** Field-wise addition, as the add* methods of a merged aggregate do. */
  function Plus(a: Totals, b: Totals): Totals
  {
    Totals(a.totalMicros + b.totalMicros, a.errorCount + b.errorCount,
           a.transactionCount + b.transactionCount, a.totalCpuMicros + b.totalCpuMicros,
           a.totalBlockedMicros + b.totalBlockedMicros, a.totalWaitedMicros + b.totalWaitedMicros,
           a.totalAllocatedKBytes + b.totalAllocatedKBytes, a.traceCount + b.traceCount)
  }

  /** Something stamped with the capture time of the interval it closes. */
  datatype Timed<T> = Timed(captureTime: int, value: T)

  type Aggregate = Timed<Totals>

  /** Per-statement statistics carried by a query aggregate. */
  datatype QueryStats = QueryStats(queryType: string, queryText: string, totalMicros: int,
                                   executionCount: int)

  type QueryAggregate = Timed<seq<QueryStats>>

  /** A call-tree node: its sample count, timer name, ordered children and ellipsed flag. */
  datatype ProfileTree = ProfileTree(sampleCount: int, timerName: string,
                                     children: seq<ProfileTree>, ellipsed: bool)

  type ProfileAggregate = Timed<ProfileTree>

  /** Field-wise sum of the totals of a sequence of aggregates. */
  function SumTotals(s: seq<Aggregate>): Totals
  {
    if s == [] then ZeroTotals else Plus(SumTotals(s[..|s| - 1]), s[|s| - 1].value)
  }

  lemma {:induction false} SumTotalsAppend(a: seq<Aggregate>, b: seq<Aggregate>)
    ensures SumTotals(a + b) == Plus(SumTotals(a), SumTotals(b))
  {
    if b == [] {
      assert a + b == a;
    } else {
      assert (a + b)[..|a + b| - 1] == a + b[..|b| - 1];
      SumTotalsAppend(a, b[..|b| - 1]);
    }
  }

  lemma SumTotalsSingle(a: Aggregate)
    ensures SumTotals([a]) == a.value
  {
    assert [a][..0] == [];
  }

  /** A transaction summary; the name is absent only for the overall summary. */
  datatype TransactionSummary = TransactionSummary(transactionName: Option<string>,
                                                   totalMicros: int, transactionCount: int)

  /** combineTransactionSummaries: adds the two totals under the given name. */
  function CombineTransactionSummaries(transactionName: Option<string>,
                                       summary1: TransactionSummary,
                                       summary2: TransactionSummary): TransactionSummary
  {
    TransactionSummary(transactionName, summary1.totalMicros + summary2.totalMicros,
                       summary1.transactionCount + summary2.transactionCount)
  }

  datatype SortOrder = TotalTime | AverageTime | Throughput

  datatype TransactionSummaryQuery = TransactionSummaryQuery(
    transactionType: string, from: int, to: int, sortOrder: SortOrder, limit: nat)

  datatype QueryResult = QueryResult(records: seq<TransactionSummary>, moreAvailable: bool)

  /** One row of a stored aggregate table: its rollup level, transaction type, transaction
      name (absent in the overall tables) and the stored item. */
  datatype StoredRow<T> = StoredRow(rollupLevel: nat, transactionType: string,
                                    transactionName: Option<string>, item: Timed<T>)

  predicate RowMatches<T>(row: StoredRow<T>, transactionType: string,
                                transactionName: Option<string>, from: int, to: int,
                                rollupLevel: nat)
  {
    row.rollupLevel == rollupLevel && row.transactionType == transactionType &&
    row.transactionName == transactionName &&
    from <= row.item.captureTime <= to
  }

  /** A range read of a stored table: the items of the rows at the given level, of the given
      type and name, whose capture time lies in the closed range [from, to], in table order.
      An absent name selects the overall table, a present one the per-transaction table. */
  function ReadStored<T>(rows: seq<StoredRow<T>>, transactionType: string,
                         transactionName: Option<string>, from: int, to: int,
                         rollupLevel: nat): (r: seq<Timed<T>>)
    ensures |r| <= |rows|
    ensures forall k :: 0 <= k < |r| ==> from <= r[k].captureTime <= to
    ensures forall k :: 0 <= k < |rows| &&
                        RowMatches(rows[k], transactionType, transactionName, from, to, rollupLevel)
                        ==> rows[k].item in r
    ensures forall k :: 0 <= k < |r| ==>
              exists j :: 0 <= j < |rows| && rows[j].item == r[k] &&
                          RowMatches(rows[j], transactionType, transactionName, from, to, rollupLevel)
  {
    if rows == [] then []
    else
      var rest := ReadStored(rows[1..], transactionType, transactionName, from, to,
                             rollupLevel);
      if RowMatches(rows[0], transactionType, transactionName, from, to, rollupLevel)
      then [rows[0].item] + rest
      else rest
  }

  /** A read of two stretches of a table is the read of the first followed by the read of the
      second: the items come in table order. */
  lemma {:induction false} ReadStoredAppend<T>(rows1: seq<StoredRow<T>>, rows2: seq<StoredRow<T>>,
                                               transactionType: string,
                                               transactionName: Option<string>, from: int, to: int,
                                               rollupLevel: nat)
    ensures ReadStored(rows1 + rows2, transactionType, transactionName, from, to, rollupLevel) ==
            ReadStored(rows1, transactionType, transactionName, from, to, rollupLevel) +
            ReadStored(rows2, transactionType, transactionName, from, to, rollupLevel)
  {
    if rows1 != [] {
      assert (rows1 + rows2)[1..] == rows1[1..] + rows2;
      ReadStoredAppend(rows1[1..], rows2, transactionType, transactionName, from, to, rollupLevel);
    } else {
      assert rows1 + rows2 == rows2;
    }
  }

  /** The durable tier: the aggregate tables as row sequences, and the summary and trace
      queries of the aggregate DAO, whose implementation is not part of this model. */
  datatype AggregateDao = AggregateDao(
    aggregates: seq<StoredRow<Totals>>,
    queryAggregates: seq<StoredRow<seq<QueryStats>>>,
    profileAggregates: seq<StoredRow<ProfileTree>>,
    readOverallTransactionSummary: (string, int, int) -> TransactionSummary,
    readTransactionSummaries: TransactionSummaryQuery -> QueryResult,
    shouldHaveOverallTraces: (string, int, int) -> bool,
    shouldHaveTransactionTraces: (string, string, int, int) -> bool,
    shouldHaveOverallErrorTraces: (string, int, int) -> bool,
    shouldHaveTransactionErrorTraces: (string, string, int, int) -> bool)

  datatype AggregateKey = AggregateKey(transactionType: string, transactionName: Option<string>)

  /** A live interval collector: its end time and what it has collected so far. A key that is
      absent from a map is a collector getter returning null. */
  datatype IntervalCollector = IntervalCollector(
    endTime: int,
    overallSummaries: map<string, TransactionSummary>,
    transactionSummaries: map<string, seq<TransactionSummary>>,
    aggregates: map<AggregateKey, Aggregate>,
    queryAggregates: map<AggregateKey, QueryAggregate>,
    profileAggregates: map<AggregateKey, ProfileAggregate>)
  {
    function LiveOverallSummary(transactionType: string): Option<TransactionSummary>
    {
      if transactionType in overallSummaries then Some(overallSummaries[transactionType])
      else None
    }

    function LiveTransactionSummaries(transactionType: string): seq<TransactionSummary>
    {
      if transactionType in transactionSummaries then transactionSummaries[transactionType]
      else []
    }
  }
}
