/** Summaries over a range: the overall summary (stored part plus every live interval's
    overall summary) and the ranked per-transaction summaries (stored and live summaries merged
    by transaction name, sorted by the requested order and cut to the requested limit). */
module Summaries {
  import opened Wrappers
  import opened Aggregates
  import opened Sorting
  import opened Ranges

  /** The only failure of the merge: a summary without a transaction name, which is rejected
      by a not-null check (a NullPointerException in the service). */
  datatype Error = NullTransactionName

  // ---------------------------------------------------------------------------------------
  // The overall summary

  /** The live overall summaries of a transaction type that are present, in collector order. */
  function LiveOverallSummaries(collectors: seq<IntervalCollector>, transactionType: string)
    : seq<TransactionSummary>
  {
    if collectors == [] then []
    else
      var init := LiveOverallSummaries(collectors[..|collectors| - 1], transactionType);
      match collectors[|collectors| - 1].LiveOverallSummary(transactionType)
      case Some(live) => init + [live]
      case None => init
  }

  function SumMicros(s: seq<TransactionSummary>): int
  {
    if s == [] then 0 else SumMicros(s[..|s| - 1]) + s[|s| - 1].totalMicros
  }

  function SumCounts(s: seq<TransactionSummary>): int
  {
    if s == [] then 0 else SumCounts(s[..|s| - 1]) + s[|s| - 1].transactionCount
  }

  /** readOverallSummary: without live intervals the stored summary over the whole range;
      otherwise the stored summary up to the revised bound plus every present live overall
      summary, the result carrying no name once a live summary has been added. */
  method ReadOverallSummary(svc: Service, transactionType: string, from: int, to: int)
    returns (overallSummary: TransactionSummary)
    ensures var collectors := svc.OrderedIntervalCollectorsInRange(from, to);
            collectors == [] ==>
              overallSummary == svc.dao.readOverallTransactionSummary(transactionType, from, to)
    ensures var collectors := svc.OrderedIntervalCollectorsInRange(from, to);
            var stored := svc.dao.readOverallTransactionSummary(transactionType, from,
                                                                GetRevisedTo(to, collectors));
            var live := LiveOverallSummaries(collectors, transactionType);
            collectors != [] ==>
              overallSummary.totalMicros == stored.totalMicros + SumMicros(live) &&
              overallSummary.transactionCount == stored.transactionCount + SumCounts(live) &&
              overallSummary.transactionName == (if live == [] then stored.transactionName else None)
  {
    var collectors := svc.OrderedIntervalCollectorsInRange(from, to);
    if collectors == [] {
      return svc.dao.readOverallTransactionSummary(transactionType, from, to);
    }
    var revisedTo := GetRevisedTo(to, collectors);
    var stored := svc.dao.readOverallTransactionSummary(transactionType, from, revisedTo);
    overallSummary := stored;
    for i := 0 to |collectors|
      invariant var live := LiveOverallSummaries(collectors[..i], transactionType);
                overallSummary.totalMicros == stored.totalMicros + SumMicros(live) &&
                overallSummary.transactionCount == stored.transactionCount + SumCounts(live) &&
                overallSummary.transactionName ==
                  (if live == [] then stored.transactionName else None)
    {
      LiveOverallSummariesStep(collectors, i, transactionType);
      var liveOverallSummary := collectors[i].LiveOverallSummary(transactionType);
      if liveOverallSummary.Some? {
        SumsSnoc(LiveOverallSummaries(collectors[..i], transactionType), liveOverallSummary.value);
        overallSummary := CombineTransactionSummaries(None, overallSummary,
                                                      liveOverallSummary.value);
      }
    }
    assert collectors[..|collectors|] == collectors;
  }

  lemma LiveOverallSummariesStep(collectors: seq<IntervalCollector>, i: nat, transactionType: string)
    requires i < |collectors|
    ensures LiveOverallSummaries(collectors[..i + 1], transactionType) ==
            match collectors[i].LiveOverallSummary(transactionType)
            case Some(live) => LiveOverallSummaries(collectors[..i], transactionType) + [live]
            case None => LiveOverallSummaries(collectors[..i], transactionType)
  {
    assert collectors[..i + 1][..i] == collectors[..i];
  }

  lemma SumsSnoc(s: seq<TransactionSummary>, x: TransactionSummary)
    ensures SumMicros(s + [x]) == SumMicros(s) + x.totalMicros
    ensures SumCounts(s + [x]) == SumCounts(s) + x.transactionCount
  {
    assert (s + [x])[..|s|] == s;
  }

  // ---------------------------------------------------------------------------------------
  // Merging per-transaction summaries by name

  predicate AllNamed(s: seq<TransactionSummary>)
  {
    forall i :: 0 <= i < |s| ==> s[i].transactionName.Some?
  }

  /** Every entry of a name-keyed map carries its own key as its name. */
  ghost predicate KeyedBy(m: map<string, TransactionSummary>)
  {
    forall k :: k in m ==> m[k].transactionName == Some(k)
  }

  /** The live transaction summaries of a type, collector by collector. */
  function LiveTransactionSummariesOf(collectors: seq<IntervalCollector>, transactionType: string)
    : seq<TransactionSummary>
  {
    if collectors == [] then []
    else
      LiveTransactionSummariesOf(collectors[..|collectors| - 1], transactionType) +
      collectors[|collectors| - 1].LiveTransactionSummaries(transactionType)
  }

  lemma {:induction false} LiveTransactionSummariesOfAppend(a: seq<IntervalCollector>,
                                                            b: seq<IntervalCollector>,
                                                            transactionType: string)
    ensures LiveTransactionSummariesOf(a + b, transactionType) ==
            LiveTransactionSummariesOf(a, transactionType) +
            LiveTransactionSummariesOf(b, transactionType)
  {
    if b == [] {
      assert a + b == a;
    } else {
      assert (a + b)[..|a + b| - 1] == a + b[..|b| - 1];
      LiveTransactionSummariesOfAppend(a, b[..|b| - 1], transactionType);
    }
  }

  /** The map after the stored records are put one by one: a later record replaces an
      earlier one of the same name. */
  function StoredByName(records: seq<TransactionSummary>): map<string, TransactionSummary>
    requires AllNamed(records)
  {
    if records == [] then map[]
    else
      var last := records[|records| - 1];
      StoredByName(records[..|records| - 1])[last.transactionName.value := last]
  }

  /** The map after the live summaries are added one by one: a live summary is put as it is
      under a new name and combined with the entry of a known name. */
  function AddLive(m: map<string, TransactionSummary>, lives: seq<TransactionSummary>)
    : map<string, TransactionSummary>
    requires AllNamed(lives)
  {
    if lives == [] then m
    else
      var acc := AddLive(m, lives[..|lives| - 1]);
      var live := lives[|lives| - 1];
      var name := live.transactionName.value;
      if name in acc then acc[name := CombineTransactionSummaries(Some(name), acc[name], live)]
      else acc[name := live]
  }

  function MergedSummaries(stored: seq<TransactionSummary>, lives: seq<TransactionSummary>)
    : map<string, TransactionSummary>
    requires AllNamed(stored) && AllNamed(lives)
  {
    AddLive(StoredByName(stored), lives)
  }

  /** Reference definitions, one name at a time. */

  /** The last record of the given name. */
  function LastNamed(records: seq<TransactionSummary>, name: string): Option<TransactionSummary>
  {
    if records == [] then None
    else if records[|records| - 1].transactionName == Some(name) then Some(records[|records| - 1])
    else LastNamed(records[..|records| - 1], name)
  }

  ghost predicate NamedIn(s: seq<TransactionSummary>, name: string)
  {
    exists i :: 0 <= i < |s| && s[i].transactionName == Some(name)
  }

  /** The sums over the summaries of the given name. */
  function NamedMicros(s: seq<TransactionSummary>, name: string): int
  {
    if s == [] then 0
    else NamedMicros(s[..|s| - 1], name) +
         (if s[|s| - 1].transactionName == Some(name) then s[|s| - 1].totalMicros else 0)
  }

  function NamedCounts(s: seq<TransactionSummary>, name: string): int
  {
    if s == [] then 0
    else NamedCounts(s[..|s| - 1], name) +
         (if s[|s| - 1].transactionName == Some(name) then s[|s| - 1].transactionCount else 0)
  }

  /** LastNamed finds a record of that name after which no record has that name, and finds
      nothing exactly when no record has that name. */
  lemma {:induction false} LastNamedIsLast(records: seq<TransactionSummary>, name: string)
    ensures LastNamed(records, name).None? <==> !NamedIn(records, name)
    ensures LastNamed(records, name).Some? ==>
              exists i :: 0 <= i < |records| && records[i] == LastNamed(records, name).value &&
                          records[i].transactionName == Some(name) &&
                          forall j :: i < j < |records| ==> records[j].transactionName != Some(name)
  {
    if records != [] {
      var init := records[..|records| - 1];
      LastNamedIsLast(init, name);
      if records[|records| - 1].transactionName != Some(name) {
        if NamedIn(records, name) {
          var i :| 0 <= i < |records| && records[i].transactionName == Some(name);
          assert init[i] == records[i];
        }
        if NamedIn(init, name) {
          var i :| 0 <= i < |init| && init[i].transactionName == Some(name);
          assert records[i] == init[i];
        }
        if LastNamed(init, name).Some? {
          var i :| 0 <= i < |init| && init[i] == LastNamed(init, name).value &&
                   init[i].transactionName == Some(name) &&
                   forall j :: i < j < |init| ==> init[j].transactionName != Some(name);
          assert records[i] == init[i];
          assert forall j :: i < j < |records| ==> records[j].transactionName != Some(name) by {
            forall j | i < j < |records| ensures records[j].transactionName != Some(name) {
              if j < |init| {
                assert records[j] == init[j];
              }
            }
          }
        }
      } else {
        assert records[|records| - 1].transactionName == Some(name);
      }
    }
  }

  /** Putting the stored records one by one leaves, under each name, the last record of that
      name, and nothing under a name no record has. */
  lemma {:induction false} StoredByNameEntry(records: seq<TransactionSummary>, name: string)
    requires AllNamed(records)
    ensures name in StoredByName(records) <==> LastNamed(records, name).Some?
    ensures name in StoredByName(records) ==>
              StoredByName(records)[name] == LastNamed(records, name).value
  {
    if records != [] {
      StoredByNameEntry(records[..|records| - 1], name);
    }
  }

  lemma {:induction false} StoredByNameKeyed(records: seq<TransactionSummary>)
    requires AllNamed(records)
    ensures KeyedBy(StoredByName(records))
  {
    if records != [] {
      StoredByNameKeyed(records[..|records| - 1]);
    }
  }

  lemma {:induction false} AddLiveKeyed(m: map<string, TransactionSummary>,
                                        lives: seq<TransactionSummary>)
    requires KeyedBy(m) && AllNamed(lives)
    ensures KeyedBy(AddLive(m, lives))
  {
    if lives != [] {
      AddLiveKeyed(m, lives[..|lives| - 1]);
    }
  }

  /** Adding the live summaries: a name is present afterwards iff it was before or some live
      summary has it, and its totals are the earlier totals (zero for a new name) plus the
      sums over the live summaries of that name. */
  lemma {:induction false} AddLiveEntry(m: map<string, TransactionSummary>,
                                        lives: seq<TransactionSummary>, name: string)
    requires AllNamed(lives)
    ensures name in AddLive(m, lives) <==> name in m || NamedIn(lives, name)
    ensures name in AddLive(m, lives) ==>
              AddLive(m, lives)[name].totalMicros ==
                (if name in m then m[name].totalMicros else 0) + NamedMicros(lives, name) &&
              AddLive(m, lives)[name].transactionCount ==
                (if name in m then m[name].transactionCount else 0) + NamedCounts(lives, name)
  {
    if lives != [] {
      var init := lives[..|lives| - 1];
      AddLiveEntry(m, init, name);
      if NamedIn(lives, name) && lives[|lives| - 1].transactionName != Some(name) {
        var i :| 0 <= i < |lives| && lives[i].transactionName == Some(name);
        assert init[i] == lives[i];
      }
      if NamedIn(init, name) {
        var i :| 0 <= i < |init| && init[i].transactionName == Some(name);
        assert lives[i] == init[i];
      }
      if !NamedIn(init, name) {
        NamedSumsZero(init, name);
      }
    }
  }

  lemma {:induction false} NamedSumsZero(s: seq<TransactionSummary>, name: string)
    requires !NamedIn(s, name)
    ensures NamedMicros(s, name) == 0 && NamedCounts(s, name) == 0
  {
    if s != [] {
      NamedSumsZero(s[..|s| - 1], name);
    }
  }

  /** What the merge map holds: a name is present iff a stored record or a live summary has
      it; the entry carries that name, and its totals are those of the last stored record of
      the name (zero if none) plus the sums over the live summaries of the name. */
  lemma MergedSummariesEntry(stored: seq<TransactionSummary>, lives: seq<TransactionSummary>,
                             name: string)
    requires AllNamed(stored) && AllNamed(lives)
    ensures name in MergedSummaries(stored, lives) <==> NamedIn(stored, name) || NamedIn(lives, name)
    ensures name in MergedSummaries(stored, lives) ==>
              var r := MergedSummaries(stored, lives)[name];
              var last := LastNamed(stored, name);
              r.transactionName == Some(name) &&
              r.totalMicros == (if last.Some? then last.value.totalMicros else 0) +
                               NamedMicros(lives, name) &&
              r.transactionCount == (if last.Some? then last.value.transactionCount else 0) +
                                    NamedCounts(lives, name)
  {
    LastNamedIsLast(stored, name);
    StoredByNameEntry(stored, name);
    StoredByNameKeyed(stored);
    AddLiveKeyed(StoredByName(stored), lives);
    AddLiveEntry(StoredByName(stored), lives, name);
  }

  // ---------------------------------------------------------------------------------------
  // Ranking

  /** The key of each sort order; every order ranks the larger key first. */
  function SortKey(sortOrder: SortOrder, s: TransactionSummary): real
  {
    match sortOrder
    case TotalTime => s.totalMicros as real
    case AverageTime =>
      if s.transactionCount == 0 then 0.0 else s.totalMicros as real / s.transactionCount as real
    case Throughput => s.transactionCount as real
  }

  /** `Ranks(order)(a, b)`: `a` may come before `b` (descending key). */
  function Ranks(sortOrder: SortOrder): (TransactionSummary, TransactionSummary) -> bool
  {
    (a: TransactionSummary, b: TransactionSummary) => SortKey(sortOrder, a) >= SortKey(sortOrder, b)
  }

  lemma RanksTotalPreorder(sortOrder: SortOrder)
    ensures TotalPreorder(Ranks(sortOrder))
  {
  }

  /** sortTransactionSummaries: the same summaries, ranked by the order's key, largest first. */
  function SortTransactionSummaries(summaries: seq<TransactionSummary>, sortOrder: SortOrder)
    : (r: seq<TransactionSummary>)
    ensures multiset(r) == multiset(summaries)
    ensures forall i, j :: 0 <= i < j < |r| ==> SortKey(sortOrder, r[i]) >= SortKey(sortOrder, r[j])
  {
    RanksTotalPreorder(sortOrder);
    var r := Sort(summaries, Ranks(sortOrder));
    assert SortedBy(r, Ranks(sortOrder));
    r
  }

  ghost predicate Listed(s: seq<TransactionSummary>, name: string)
  {
    exists i :: 0 <= i < |s| && s[i].transactionName == Some(name)
  }

  /** `s` holds entries of `m`, each under its own name, no name twice. */
  ghost predicate Entries(s: seq<TransactionSummary>, m: map<string, TransactionSummary>)
  {
    (forall i :: 0 <= i < |s| ==>
       s[i].transactionName.Some? && s[i].transactionName.value in m &&
       s[i] == m[s[i].transactionName.value]) &&
    (forall i, j :: 0 <= i < j < |s| ==> s[i].transactionName != s[j].transactionName)
  }

  /** `s` lists every entry of `m` once, in some order (the iteration order of a hash map). */
  ghost predicate ListsAll(s: seq<TransactionSummary>, m: map<string, TransactionSummary>)
  {
    Entries(s, m) && forall k :: k in m ==> Listed(s, k)
  }

  /** The values of a name-keyed map, as a sequence in some order. */
  method ListValues(m: map<string, TransactionSummary>) returns (values: seq<TransactionSummary>)
    requires KeyedBy(m)
    ensures ListsAll(values, m) && |values| == |m|
  {
    values := [];
    var remaining := m.Keys;
    while remaining != {}
      invariant remaining <= m.Keys
      invariant |values| + |remaining| == |m|
      invariant Entries(values, m)
      invariant forall i :: 0 <= i < |values| ==> values[i].transactionName.value !in remaining
      invariant forall k :: k in m && k !in remaining ==> Listed(values, k)
      decreases |remaining|
    {
      var k :| k in remaining;
      ghost var before := values;
      values := values + [m[k]];
      remaining := remaining - {k};
      forall k' | k' in m && k' !in remaining ensures Listed(values, k') {
        if k' == k {
          assert values[|before|].transactionName == Some(k);
        } else {
          var i :| 0 <= i < |before| && before[i].transactionName == Some(k');
          assert values[i] == before[i];
        }
      }
    }
  }

  /** Sorting a listing of a map lists it again. */
  lemma EntriesPermuted(a: seq<TransactionSummary>, b: seq<TransactionSummary>,
                        m: map<string, TransactionSummary>)
    requires ListsAll(a, m) && multiset(a) == multiset(b)
    ensures ListsAll(b, m)
  {
    forall i | 0 <= i < |b|
      ensures b[i].transactionName.Some? && b[i].transactionName.value in m &&
              b[i] == m[b[i].transactionName.value]
    {
      assert b[i] in multiset(b);
      var j :| 0 <= j < |a| && a[j] == b[i];
    }
    forall i, j | 0 <= i < j < |b| ensures b[i].transactionName != b[j].transactionName {
      if b[i].transactionName == b[j].transactionName {
        assert b[i] == b[j];
        NoDuplicatesCount(a, b[i]);
        TwoIndicesCount(b, i, j);
        assert false;
      }
    }
    forall k | k in m ensures Listed(b, k) {
      var i :| 0 <= i < |a| && a[i].transactionName == Some(k);
      assert a[i] in multiset(a);
      var j :| 0 <= j < |b| && b[j] == a[i];
    }
  }

  /** The records of a ranked query result: entries of the merge map, no name twice, sorted
      by the order, as many as the limit allows, every name left out ranked no higher than
      every name kept, and nothing left out when the map fits the limit. */
  ghost predicate RankedPrefix(records: seq<TransactionSummary>, m: map<string, TransactionSummary>,
                               sortOrder: SortOrder, limit: nat)
  {
    Entries(records, m) &&
    |records| == (if |m| <= limit then |m| else limit) &&
    SortedBy(records, Ranks(sortOrder)) &&
    (|m| <= limit ==> forall k :: k in m ==> Listed(records, k)) &&
    (forall k :: k in m && !Listed(records, k) ==>
       forall i :: 0 <= i < |records| ==> SortKey(sortOrder, records[i]) >= SortKey(sortOrder, m[k]))
  }

  lemma TruncatedRanked(sorted: seq<TransactionSummary>, m: map<string, TransactionSummary>,
                        sortOrder: SortOrder, limit: nat)
    requires ListsAll(sorted, m) && |sorted| == |m|
    requires forall i, j :: 0 <= i < j < |sorted| ==>
               SortKey(sortOrder, sorted[i]) >= SortKey(sortOrder, sorted[j])
    ensures RankedPrefix(if |sorted| > limit then sorted[..limit] else sorted, m, sortOrder, limit)
  {
    if |sorted| > limit {
      var records := sorted[..limit];
      CutEntries(sorted, m, limit);
      CutRanksLower(sorted, m, sortOrder, limit);
      CutKeysDescend(sorted, sortOrder, limit);
      KeysDescendSorted(records, sortOrder);
      assert RankedPrefix(records, m, sortOrder, limit);
    } else {
      KeysDescendSorted(sorted, sortOrder);
      assert RankedPrefix(sorted, m, sortOrder, limit);
    }
  }

  /** Descending keys are the order of Ranks. */
  lemma KeysDescendSorted(s: seq<TransactionSummary>, sortOrder: SortOrder)
    requires forall i, j :: 0 <= i < j < |s| ==> SortKey(sortOrder, s[i]) >= SortKey(sortOrder, s[j])
    ensures SortedBy(s, Ranks(sortOrder))
  {
  }

  lemma CutKeysDescend(s: seq<TransactionSummary>, sortOrder: SortOrder, limit: nat)
    requires limit <= |s|
    requires forall i, j :: 0 <= i < j < |s| ==> SortKey(sortOrder, s[i]) >= SortKey(sortOrder, s[j])
    ensures forall i, j :: 0 <= i < j < limit ==>
              SortKey(sortOrder, s[..limit][i]) >= SortKey(sortOrder, s[..limit][j])
  {
    assert forall i :: 0 <= i < limit ==> s[..limit][i] == s[i];
  }

  lemma CutEntries(sorted: seq<TransactionSummary>, m: map<string, TransactionSummary>, limit: nat)
    requires Entries(sorted, m) && limit <= |sorted|
    ensures Entries(sorted[..limit], m)
  {
    var records := sorted[..limit];
    assert forall i :: 0 <= i < |records| ==> records[i] == sorted[i];
  }

  /** A name cut off by the limit ranks no higher than any name kept. */
  lemma CutRanksLower(sorted: seq<TransactionSummary>, m: map<string, TransactionSummary>,
                      sortOrder: SortOrder, limit: nat)
    requires ListsAll(sorted, m) && limit <= |sorted|
    requires forall i, j :: 0 <= i < j < |sorted| ==>
               SortKey(sortOrder, sorted[i]) >= SortKey(sortOrder, sorted[j])
    ensures forall k :: k in m && !Listed(sorted[..limit], k) ==>
              forall i :: 0 <= i < limit ==>
                SortKey(sortOrder, sorted[..limit][i]) >= SortKey(sortOrder, m[k])
  {
    var records := sorted[..limit];
    forall k | k in m && !Listed(records, k)
      ensures forall i :: 0 <= i < limit ==> SortKey(sortOrder, records[i]) >= SortKey(sortOrder, m[k])
    {
      var j :| 0 <= j < |sorted| && sorted[j].transactionName == Some(k);
      forall i | 0 <= i < limit ensures sorted[i].transactionName != Some(k) {
        assert records[i] == sorted[i];
      }
      assert sorted[j] == m[k];
      forall i | 0 <= i < limit ensures SortKey(sortOrder, records[i]) >= SortKey(sortOrder, m[k]) {
        assert records[i] == sorted[i];
      }
    }
  }

  /** What mergeInLiveTransactionSummaries returns for a query, the stored result and the
      live summaries in collector order: a failure iff some summary has no name; otherwise
      the ranked prefix of the merge map and a more-available flag that is set when the
      stored result had it or the merge map exceeds the limit. */
  ghost predicate IsMergeResult(query: TransactionSummaryQuery, queryResult: QueryResult,
                                lives: seq<TransactionSummary>, result: Result<QueryResult, Error>)
  {
    if !AllNamed(queryResult.records) || !AllNamed(lives) then result == Failure(NullTransactionName)
    else
      var m := MergedSummaries(queryResult.records, lives);
      result.Success? &&
      RankedPrefix(result.value.records, m, query.sortOrder, query.limit) &&
      result.value.moreAvailable == (queryResult.moreAvailable || |m| > query.limit)
  }

  /** mergeInLiveTransactionSummaries: puts the stored records into a map by name, adds the
      live summaries collector by collector, then sorts the map's values and cuts them to
      the limit. */
  method MergeInLiveTransactionSummaries(query: TransactionSummaryQuery, queryResult: QueryResult,
                                         intervalCollectors: seq<IntervalCollector>)
    returns (result: Result<QueryResult, Error>)
    ensures IsMergeResult(query, queryResult,
                          LiveTransactionSummariesOf(intervalCollectors, query.transactionType),
                          result)
  {
    var stored := queryResult.records;
    ghost var allLives := LiveTransactionSummariesOf(intervalCollectors, query.transactionType);
    var putStored := PutStoredRecords(stored);
    if putStored.None? {
      return Failure(NullTransactionName);
    }
    var m := putStored.value;
    ghost var storedMap := m;
    for i := 0 to |intervalCollectors|
      invariant AllNamed(LiveTransactionSummariesOf(intervalCollectors[..i], query.transactionType))
      invariant m == AddLive(storedMap,
                             LiveTransactionSummariesOf(intervalCollectors[..i], query.transactionType))
    {
      var lives := intervalCollectors[i].LiveTransactionSummaries(query.transactionType);
      ghost var done := LiveTransactionSummariesOf(intervalCollectors[..i], query.transactionType);
      assert intervalCollectors[..i + 1][..i] == intervalCollectors[..i];
      var added := AddLiveRecords(storedMap, done, lives, m);
      if added.None? {
        var j :| 0 <= j < |lives| && lives[j].transactionName.None?;
        LiveNotNamed(intervalCollectors, query.transactionType, i, j);
        return Failure(NullTransactionName);
      }
      m := added.value;
    }
    assert intervalCollectors[..|intervalCollectors|] == intervalCollectors;
    StoredByNameKeyed(stored);
    AddLiveKeyed(storedMap, allLives);
    var records, moreAvailable := RankValues(m, query.sortOrder, query.limit,
                                             queryResult.moreAvailable);
    return Success(QueryResult(records, moreAvailable));
  }

  /** The first loop of mergeInLiveTransactionSummaries: the stored records by name, or
      nothing when a record has no name. */
  method PutStoredRecords(stored: seq<TransactionSummary>)
    returns (r: Option<map<string, TransactionSummary>>)
    ensures r.None? <==> !AllNamed(stored)
    ensures r.Some? ==> AllNamed(stored) && r.value == StoredByName(stored)
  {
    var m: map<string, TransactionSummary> := map[];
    for i := 0 to |stored|
      invariant AllNamed(stored[..i])
      invariant m == StoredByName(stored[..i])
    {
      var transactionSummary := stored[i];
      if transactionSummary.transactionName.None? {
        return None;
      }
      assert stored[..i + 1][..i] == stored[..i];
      m := m[transactionSummary.transactionName.value := transactionSummary];
    }
    assert stored[..|stored|] == stored;
    return Some(m);
  }

  /** The inner loop of mergeInLiveTransactionSummaries over one collector's live summaries:
      each is put under a new name or combined with the entry of a known name; nothing is
      returned when one has no name. */
  method AddLiveRecords(ghost storedMap: map<string, TransactionSummary>,
                        ghost done: seq<TransactionSummary>, lives: seq<TransactionSummary>,
                        m0: map<string, TransactionSummary>)
    returns (r: Option<map<string, TransactionSummary>>)
    requires AllNamed(done) && m0 == AddLive(storedMap, done)
    ensures r.None? ==> exists j :: 0 <= j < |lives| && lives[j].transactionName.None?
    ensures r.Some? ==> AllNamed(done + lives) && r.value == AddLive(storedMap, done + lives)
  {
    var m := m0;
    assert done + lives[..0] == done;
    for j := 0 to |lives|
      invariant AllNamed(done + lives[..j])
      invariant m == AddLive(storedMap, done + lives[..j])
    {
      var liveTransactionSummary := lives[j];
      if liveTransactionSummary.transactionName.None? {
        return None;
      }
      var transactionName := liveTransactionSummary.transactionName.value;
      assert (done + lives[..j + 1])[..|done + lives[..j + 1]| - 1] == done + lives[..j];
      assert done + lives[..j + 1] == (done + lives[..j]) + [lives[j]];
      if transactionName !in m {
        m := m[transactionName := liveTransactionSummary];
      } else {
        m := m[transactionName := CombineTransactionSummaries(Some(transactionName),
                                                              m[transactionName],
                                                              liveTransactionSummary)];
      }
    }
    assert lives[..|lives|] == lives;
    return Some(m);
  }

  /** The end of mergeInLiveTransactionSummaries: the map's values sorted by the order and
      cut to the limit, with the more-available flag set when anything was cut. */
  method RankValues(m: map<string, TransactionSummary>, sortOrder: SortOrder, limit: nat,
                    storedMoreAvailable: bool)
    returns (records: seq<TransactionSummary>, moreAvailable: bool)
    requires KeyedBy(m)
    ensures RankedPrefix(records, m, sortOrder, limit)
    ensures moreAvailable == (storedMoreAvailable || |m| > limit)
  {
    var values := ListValues(m);
    var sorted := SortTransactionSummaries(values, sortOrder);
    EntriesPermuted(values, sorted, m);
    TruncatedRanked(sorted, m, sortOrder, limit);
    moreAvailable := storedMoreAvailable;
    records := sorted;
    if |sorted| > limit {
      moreAvailable := true;
      records := sorted[..limit];
    }
  }

  /** A live summary without a name makes the whole live sequence fail the name check. */
  lemma LiveNotNamed(collectors: seq<IntervalCollector>, transactionType: string, i: int, j: int)
    requires 0 <= i < |collectors|
    requires 0 <= j < |collectors[i].LiveTransactionSummaries(transactionType)|
    requires collectors[i].LiveTransactionSummaries(transactionType)[j].transactionName.None?
    ensures !AllNamed(LiveTransactionSummariesOf(collectors, transactionType))
  {
    var lives := collectors[i].LiveTransactionSummaries(transactionType);
    var before := LiveTransactionSummariesOf(collectors[..i], transactionType);
    var upTo := collectors[..i + 1];
    assert upTo[..i] == collectors[..i] && upTo[i] == collectors[i];
    var first := LiveTransactionSummariesOf(upTo, transactionType);
    assert first == before + lives;
    assert first[|before| + j] == lives[j];
    assert collectors == upTo + collectors[i + 1..];
    LiveTransactionSummariesOfAppend(upTo, collectors[i + 1..], transactionType);
    var all := LiveTransactionSummariesOf(collectors, transactionType);
    assert all[|before| + j] == first[|before| + j];
  }

  /** readTransactionSummaries: without live intervals the stored result of the query itself;
      otherwise the merge of the stored result up to the revised bound with the live
      summaries. */
  method ReadTransactionSummaries(svc: Service, query: TransactionSummaryQuery)
    returns (result: Result<QueryResult, Error>)
    ensures var collectors := svc.OrderedIntervalCollectorsInRange(query.from, query.to);
            collectors == [] ==> result == Success(svc.dao.readTransactionSummaries(query))
    ensures var collectors := svc.OrderedIntervalCollectorsInRange(query.from, query.to);
            var revisedQuery := query.(to := GetRevisedTo(query.to, collectors));
            collectors != [] ==>
              IsMergeResult(revisedQuery, svc.dao.readTransactionSummaries(revisedQuery),
                            LiveTransactionSummariesOf(collectors, query.transactionType), result)
  {
    var collectors := svc.OrderedIntervalCollectorsInRange(query.from, query.to);
    if collectors == [] {
      return Success(svc.dao.readTransactionSummaries(query));
    }
    var revisedTo := GetRevisedTo(query.to, collectors);
    var revisedQuery := query.(to := revisedTo);
    var queryResult := svc.dao.readTransactionSummaries(revisedQuery);
    result := MergeInLiveTransactionSummaries(revisedQuery, queryResult, collectors);
  }
}
