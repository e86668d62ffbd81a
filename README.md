# Glowroot transaction queries and agent rollups, in Dafny

This project models two parts of Glowroot, a Java application performance monitor. It proves
properties of the model.

**Transaction queries of the local UI** (`TransactionCommonService`). Every read over a time
range combines two tiers:

- the *stored* tier: rows of the aggregate tables, read by capture-time range and rollup level;
- the *live* tier: the interval collectors that have not been flushed yet.

Modules:

- `Ranges`: chooses the rollup level from the width of the range. It also computes the *revised
  bound*, one millisecond before the first live interval ends, so that no interval is counted in
  both tiers.
- `Summaries`:
  - the overall summary: the stored summary plus every live overall summary;
  - the per-transaction summaries: stored records and live summaries merged by name in a map,
    ranked by one of three sort orders, and cut to the limit with a more-available flag.
- `Series`: the aggregate, query and profile series. A series is stored items, then live items.
  At rollup level 1 it adds the level-0 tail that has not been rolled up yet.
- `Rollup`: the read-time rollup fold of that tail. Consecutive aggregates whose capture times
  fall in the same right-closed bucket `(k*w - w, k*w]` are merged into one. Each merged aggregate
  carries the capture time of the last aggregate it merged.
- `Profiles`: profile truncation. Breadth first with an explicit queue, every node loses its
  children that have fewer than a minimum number of samples, and a node that lost one is marked
  *ellipsed*. The queue method runs over a mutable node table. It is proved against a recursive
  definition on trees.

**The agent rollup table of the central collector** (`AgentRollupDao`). A row exists per agent
and per agent rollup. It holds the parent rollup, the agent flag and the last capture time.

- `RollupIds`: the chain of a slash-separated rollup id.
- `AgentRollups`:
  - the table as a map;
  - a cache of parent ids in front of the table, and its coherence;
  - `store`, `insert`, `delete`, `updateLastCaptureTime` and the start-up cleanup;
  - `readAgentRollupIds`;
  - `readAgentRollups`, which assembles the included rows into a forest sorted by display name.

Shared modules:

- `Wrappers`: `Option` and `Result`.
- `Sorting`: an insertion sort over a total preorder. It stands for Guava's
  `immutableSortedCopy` and for `List.sort`.
- `Aggregates`: the value types, the stored tables and the live collectors.

Stateful code is modelled as imperative Dafny:

- `AgentRollupDao` is a class. The table and the cache are its fields.
- The profile node table is a class, `ProfileArena`.
- The loops of the Java code are `while` and `for` loops with invariants. The Java loops in
  `rollUp`, `getLiveAggregates`, `mergeInLiveTransactionSummaries`, `store`, `truncateLeafs`,
  `readAgentRollups` and `getAgentRollupIds` each become one such method. Each method is proved
  against a recursive reference function.
- The pure decisions (rollup level, revised bound, display name) are functions.

Source paths below are relative to the root of the Glowroot repository.

Behaviour of the code worth knowing:

- In `store`, the agent id can itself be one of the ids in its rollup chain, for example agent
  `a/b` in rollup `a/b`. The agent's row is then overwritten by the later insert that writes the
  rollup's row, and the agent ends up not flagged as an agent. `StoreRowsContents` and
  `StoreThenRead` state their agent-row clauses only for an agent id outside the chain, which
  is exactly the case the code handles as intended.
- `delete` does not invalidate the parent cache. `DeleteBreaksCoherence` exhibits a cached parent
  that outlives its row.

## Model

| member | source | states |
|---|---|---|
| Ranges.Service.OrderedIntervalCollectorsInRange | core/src/main/java/org/glowroot/local/ui/TransactionCommonService.java:176-182 | without a live aggregate collector there are no live intervals; otherwise what the collector reports for the range; either way the collectors are ordered by end time |
| Ranges.GetRollupLevel | core/src/main/java/org/glowroot/local/ui/TransactionCommonService.java:325-331 | the level is 0 or 1, and it is 0 exactly when the range is no wider than the rollup threshold |
| Ranges.RollupLevelMonotone | core/src/main/java/org/glowroot/local/ui/TransactionCommonService.java:325-331 | a wider range never selects a finer level |
| Ranges.GetRevisedTo | core/src/main/java/org/glowroot/local/ui/TransactionCommonService.java:333-342 | with no live interval the bound is the requested `to`; otherwise it lies before the end of the first live interval |
| Ranges.StoredReadEndsBeforeLive | core/src/main/java/org/glowroot/local/ui/TransactionCommonService.java:333-342 | for collectors ordered by end time, every item of a stored read bounded by the revised bound was captured before every live interval ends, so no interval is counted in both tiers |
| Ranges.ServiceReadsKeepTiersApart | core/src/main/java/org/glowroot/local/ui/TransactionCommonService.java:176-182 | for the collectors the service itself reports for a range, the stored read bounded by their revised bound holds only items captured before every one of those live intervals ends |
| Aggregates.ReadStored | core/src/main/java/org/glowroot/local/ui/TransactionCommonService.java:184-197 | a stored read returns exactly the items of the rows of the requested level, type and name (the overall table for no name, the per-transaction table for a name) inside the closed range: each returned item comes from such a row and each such row's item is returned |
| Aggregates.ReadStoredAppend | core/src/main/java/org/glowroot/local/ui/TransactionCommonService.java:184-197 | a read of two stretches of a table is the read of the first followed by the read of the second, so items come in table order |
| Sorting.Sort | central/src/main/java/org/glowroot/central/repo/AgentRollupDao.java:157 | the result is sorted by the preorder and is a permutation of the input |
| Summaries.ReadOverallSummary | core/src/main/java/org/glowroot/local/ui/TransactionCommonService.java:67-86 | without live intervals, the stored summary over the whole range; otherwise the stored summary up to the revised bound plus the sum of the present live overall summaries, in micros and in count; the name is dropped once a live summary is added |
| Summaries.ReadTransactionSummaries | core/src/main/java/org/glowroot/local/ui/TransactionCommonService.java:88-104 | without live intervals, the stored result of the query itself; otherwise the merge result of the query with `to` revised, its stored result and the live summaries of all collectors |
| Summaries.MergeInLiveTransactionSummaries | core/src/main/java/org/glowroot/local/ui/TransactionCommonService.java:344-380 | a failure exactly when a stored or live summary has no name; otherwise the records are the ranked prefix of the merge map, and more-available is set exactly when the stored result had it or the map exceeds the limit |
| Summaries.PutStoredRecords | core/src/main/java/org/glowroot/local/ui/TransactionCommonService.java:348-354 | fails exactly when some stored record has no name; otherwise the map of the stored records by name, a later record replacing an earlier one |
| Summaries.AddLiveRecords | core/src/main/java/org/glowroot/local/ui/TransactionCommonService.java:358-370 | a failure only when some live summary has no name; otherwise the map extended by this collector's live summaries: a new name puts the summary, a known name combines it with the entry |
| Summaries.RankValues | core/src/main/java/org/glowroot/local/ui/TransactionCommonService.java:372-378 | the records are the ranked prefix of the map, and more-available is the stored flag or whether the map exceeds the limit |
| Summaries.ListValues | core/src/main/java/org/glowroot/local/ui/TransactionCommonService.java:372-373 | the values of the map are listed, each entry exactly once, under its own name |
| Summaries.SortTransactionSummaries | core/src/main/java/org/glowroot/local/ui/TransactionCommonService.java:453-469 | the result is a permutation of the summaries, with the sort order's key (total time, average time or transaction count) non-increasing |
| Summaries.RanksTotalPreorder | core/src/main/java/org/glowroot/local/ui/TransactionCommonService.java:453-469 | each of the three descending orders is total and transitive, so the sort is well defined |
| Summaries.TruncatedRanked | core/src/main/java/org/glowroot/local/ui/TransactionCommonService.java:374-378 | cutting a sorted listing of the map to the limit keeps sorted distinct entries, exactly `min(size, limit)` of them, all of them when the map fits, and every entry cut off ranks no higher than every entry kept |
| Summaries.StoredByNameEntry | core/src/main/java/org/glowroot/local/ui/TransactionCommonService.java:348-354 | a name is in the stored map exactly when some stored record has it, and then maps to the last such record |
| Summaries.AddLiveEntry | core/src/main/java/org/glowroot/local/ui/TransactionCommonService.java:355-371 | after the live summaries are added, a name is present exactly when it was before or some live summary has it; its totals are the earlier totals (zero for a new name) plus the sums over the live summaries of that name |
| Summaries.MergedSummariesEntry | core/src/main/java/org/glowroot/local/ui/TransactionCommonService.java:348-371 | a name is in the merge map exactly when a stored record or a live summary has it; the entry carries that name, and its totals are the last stored record's (zero if none) plus the live sums for the name |
| Summaries.LastNamedIsLast | core/src/main/java/org/glowroot/local/ui/TransactionCommonService.java:348-354 | the reference lookup finds nothing exactly when no record has the name, and otherwise finds a record of that name after which none has it |
| Summaries.LiveNotNamed | core/src/main/java/org/glowroot/local/ui/TransactionCommonService.java:359-362 | a live summary without a name in any collector makes the whole live sequence fail the name check |
| Rollup.RollupTimeBounds | core/src/main/java/org/glowroot/local/ui/TransactionCommonService.java:292-293 | the rollup time of a capture time `t` lies in `[t, t + width)`: the bucket is right-closed |
| Rollup.RollupTimeUnique | core/src/main/java/org/glowroot/local/ui/TransactionCommonService.java:292-293 | the rollup time is the only multiple of the width in `[t, t + width)` |
| Rollup.RollupTimeOnBoundary | core/src/main/java/org/glowroot/local/ui/TransactionCommonService.java:292-293 | a capture time on a multiple of the width stays in the bucket it closes |
| Rollup.RollupTimeMonotone | core/src/main/java/org/glowroot/local/ui/TransactionCommonService.java:292-293 | a later capture time never gets an earlier rollup time |
| Rollup.RollupTimeExample | core/src/main/java/org/glowroot/local/ui/TransactionCommonService.java:292-293 | with one-minute buckets, 120000 ms belongs to 120000 and 120001 ms to 180000 |
| Rollup.RunLengthMaximal | core/src/main/java/org/glowroot/local/ui/TransactionCommonService.java:294-298 | every input of the leading run shares the first input's bucket, and the input after the run does not |
| Rollup.RollUp | core/src/main/java/org/glowroot/local/ui/TransactionCommonService.java:285-323 | the loop's output is the reference fold: one merged aggregate per maximal run of consecutive inputs with one bucket, in input order |
| Rollup.RollUpStep | core/src/main/java/org/glowroot/local/ui/TransactionCommonService.java:294-316 | one loop step: an input with a new bucket emits the current merge and starts a new one; an input with the same bucket is added to the current merge and takes over its capture time |
| Rollup.RollUpSpecSnoc | core/src/main/java/org/glowroot/local/ui/TransactionCommonService.java:294-316 | appending an input to the fold either extends the last output or opens a new one, depending only on its bucket and that of the input before it |
| Rollup.RollUpLength | core/src/main/java/org/glowroot/local/ui/TransactionCommonService.java:294-322 | empty input yields no output; otherwise there is one output more than there are adjacent inputs with different buckets |
| Rollup.RollUpConservesTotals | core/src/main/java/org/glowroot/local/ui/TransactionCommonService.java:306-314 | the eight counters summed over the outputs equal those summed over the inputs |
| Rollup.MergeRunBucket | core/src/main/java/org/glowroot/local/ui/TransactionCommonService.java:304-305 | a merged aggregate has the capture time of the last input of its run, hence that run's bucket |
| Rollup.RollUpAdjacentBucketsDiffer | core/src/main/java/org/glowroot/local/ui/TransactionCommonService.java:294-298 | adjacent outputs have different buckets, and the first output has the first input's bucket |
| Rollup.RollUpLowerBound | core/src/main/java/org/glowroot/local/ui/TransactionCommonService.java:304-305 | outputs carry input capture times, so a lower bound on the inputs bounds the outputs |
| Rollup.RollUpStrictlyIncreasing | core/src/main/java/org/glowroot/local/ui/TransactionCommonService.java:285-323 | for input ordered by capture time, the outputs' capture times and buckets strictly increase |
| Rollup.RollUpBuckets | core/src/main/java/org/glowroot/local/ui/TransactionCommonService.java:285-323 | the outputs touch exactly the buckets the inputs touch |
| Rollup.RollUpMergesWholeBuckets | core/src/main/java/org/glowroot/local/ui/TransactionCommonService.java:285-323 | for input ordered by capture time, each output is the merge of all inputs in its bucket (their summed counters, capture time of the last), so no bucket is split |
| Series.LiveItemsExact | core/src/main/java/org/glowroot/local/ui/TransactionCommonService.java:382-422 | the live items are at most one per collector; each is some collector's live item for the key; every collector that has one contributes it |
| Series.GetLive | core/src/main/java/org/glowroot/local/ui/TransactionCommonService.java:382-394 | the loop returns the present live items of the key in collector order (the body of all three live getters) |
| Series.RevisedFrom | core/src/main/java/org/glowroot/local/ui/TransactionCommonService.java:140-144 | the tail starts no earlier than a threshold before the revised bound, and after the last stored rollup when there is one; it is one of those two candidates |
| Series.TailAfterRolledUp | core/src/main/java/org/glowroot/local/ui/TransactionCommonService.java:140-147 | every item of the level-0 tail lies after the last stored rollup, within a threshold of the revised bound and not after it, so no stored item is read twice |
| Series.GetAggregates | core/src/main/java/org/glowroot/local/ui/TransactionCommonService.java:126-153 | at level 0, stored plus live aggregates; at level 1, the stored rollups followed by the fold of the level-0 tail and the live aggregates, the total counters being those of the three parts |
| Series.GetUnrolledSeries | core/src/main/java/org/glowroot/local/ui/TransactionCommonService.java:199-226 | at level 0, stored plus live items; at level 1, stored items, then the level-0 tail as it is, then live items |
| Series.GetQueryAggregates | core/src/main/java/org/glowroot/local/ui/TransactionCommonService.java:199-226 | the query aggregate series as above, over the query aggregate table and live query aggregates |
| Series.GetProfileAggregates | core/src/main/java/org/glowroot/local/ui/TransactionCommonService.java:243-271 | the profile aggregate series as above, over the profile aggregate table and live profile aggregates |
| Series.ShouldHaveTracesDispatch | core/src/main/java/org/glowroot/local/ui/TransactionCommonService.java:106-114 | the answer without a name depends only on the overall query, with a name only on the per-transaction query |
| Series.ShouldHaveErrorTracesDispatch | core/src/main/java/org/glowroot/local/ui/TransactionCommonService.java:116-124 | the same dispatch over the error-trace queries |
| Series.ShouldHaveTracesSelects | core/src/main/java/org/glowroot/local/ui/TransactionCommonService.java:106-114 | a name-less request is answered by the overall trace query, a named one by the per-transaction trace query of that name, and the error-trace queries never change the answer |
| Series.ShouldHaveErrorTracesSelects | core/src/main/java/org/glowroot/local/ui/TransactionCommonService.java:116-124 | a name-less request is answered by the overall error-trace query, a named one by the per-transaction error-trace query of that name, and the plain trace queries never change the answer |
| Profiles.Filter | core/src/main/java/org/glowroot/local/ui/TransactionCommonService.java:439-449 | the kept children are among the children and have at least the minimum, every child with at least the minimum is kept, and all are kept exactly when none is below it |
| Profiles.Prune | core/src/main/java/org/glowroot/local/ui/TransactionCommonService.java:434-451 | truncation keeps a node's sample count and timer name, and marks it ellipsed exactly when it was ellipsed already or some child was below the minimum |
| Profiles.PruneAtLeast | core/src/main/java/org/glowroot/local/ui/TransactionCommonService.java:434-451 | after truncation every node below the top has at least the minimum |
| Profiles.PruneIdentity | core/src/main/java/org/glowroot/local/ui/TransactionCommonService.java:434-451 | a tree with nothing below the minimum is left exactly as it is |
| Profiles.PruneIdempotent | core/src/main/java/org/glowroot/local/ui/TransactionCommonService.java:434-451 | truncating twice is truncating once |
| Profiles.PruneNonPositiveMinimum | core/src/main/java/org/glowroot/local/ui/TransactionCommonService.java:434-451 | a minimum of zero or less changes nothing in a tree with non-negative counts |
| Profiles.PruneKeepsOrder | core/src/main/java/org/glowroot/local/ui/TransactionCommonService.java:439-449 | the surviving children are a subsequence of the children in their order, each keeping its count and timer name |
| Profiles.FilterIndices | core/src/main/java/org/glowroot/local/ui/TransactionCommonService.java:439-449 | the kept child positions are among the positions and have at least the minimum, and every position whose count is at least the minimum is kept |
| Profiles.FilterIndicesIdempotent | core/src/main/java/org/glowroot/local/ui/TransactionCommonService.java:439-449 | filtering kept positions again keeps them all: a node visited twice loses nothing more |
| Profiles.FilterTrees | core/src/main/java/org/glowroot/local/ui/TransactionCommonService.java:439-449 | filtering positions in the table and then taking their trees is filtering the trees |
| Profiles.ClosedSetPruned | core/src/main/java/org/glowroot/local/ui/TransactionCommonService.java:434-451 | when every node of a set closed under surviving children has been truncated once, the tree at each of them is the truncation of its tree before |
| Profiles.QueueShrinks | core/src/main/java/org/glowroot/local/ui/TransactionCommonService.java:438-449 | visiting the head of the queue strictly lowers the number of downward paths from the queued nodes, so the queue loop ends |
| Profiles.TruncateToInt | core/src/main/java/org/glowroot/local/ui/TransactionCommonService.java:169 | Java's double-to-int cast: within int range, truncation toward zero |
| Profiles.MinSamplesBounds | core/src/main/java/org/glowroot/local/ui/TransactionCommonService.java:169 | the minimum for a percentage between 0 and 1 lies between 0 and the root's sample count |
| Profiles.MinSamplesExample | core/src/main/java/org/glowroot/local/ui/TransactionCommonService.java:169 | 10% of 100 samples is 10, half of 7 is 3, 0.15% of 1000 is 1 |
| Profiles.ProfileArena.TruncateChildren | core/src/main/java/org/glowroot/local/ui/TransactionCommonService.java:439-449 | the iterator loop leaves the node with exactly its filtered children, in order, and ellipsed when it was or lost one; it returns the kept children for the queue and changes nothing else |
| Profiles.ProfileArena.TruncateLeafs | core/src/main/java/org/glowroot/local/ui/TransactionCommonService.java:434-451 | the tree at each given node becomes its truncation; every node is unchanged or truncated once; nodes before all given ones are untouched |
| Profiles.ProfileArena.GetProfile | core/src/main/java/org/glowroot/local/ui/TransactionCommonService.java:163-174 | node counts and timer names never change and the synthetic root keeps its children and its flag; a zero percentage changes nothing; otherwise each child of the synthetic root becomes its truncation with the minimum taken from the root's count, and every node is either unchanged or truncated once |
| Profiles.VisitStep | core/src/main/java/org/glowroot/local/ui/TransactionCommonService.java:438-449 | visiting the queue's head keeps the queue loop's invariant and shrinks the termination measure |
| Profiles.QueueDrained | core/src/main/java/org/glowroot/local/ui/TransactionCommonService.java:438 | once the queue is empty, the invariant yields the loop's postcondition |
| RollupIds.IndexOf | central/src/main/java/org/glowroot/central/repo/AgentRollupDao.java:250 | String.indexOf: -1 when no character at or after the start matches, else the first matching position |
| RollupIds.GetAgentRollupIds | central/src/main/java/org/glowroot/central/repo/AgentRollupDao.java:246-256 | the loop returns the prefixes before each slash, in order, then the id itself |
| RollupIds.AgentRollupIdsLength | central/src/main/java/org/glowroot/central/repo/AgentRollupDao.java:246-256 | there is one id per slash, plus the id itself |
| RollupIds.AgentRollupIdsChain | central/src/main/java/org/glowroot/central/repo/AgentRollupDao.java:246-256 | the chain ends with the id, each entry is a proper prefix of the next, and a string is in it exactly when it is the id or the prefix before one of its slashes |
| RollupIds.AgentRollupIdsDistinct | central/src/main/java/org/glowroot/central/repo/AgentRollupDao.java:246-256 | the chain's lengths strictly increase, so no id appears twice |
| RollupIds.OutermostHasNoSlash | central/src/main/java/org/glowroot/central/repo/AgentRollupDao.java:246-256 | the first, outermost rollup contains no slash |
| RollupIds.AgentRollupIdsExample | central/src/main/java/org/glowroot/central/repo/AgentRollupDao.java:246-256 | `a/b/c` gives `a`, `a/b`, `a/b/c`; `abc` gives itself; `a//` gives `a`, `a/`, `a//` |
| AgentRollups.LoadParent | central/src/main/java/org/glowroot/central/repo/AgentRollupDao.java:290-302 | the loader finds a parent exactly when the row exists and has one, and then it is that row's parent |
| AgentRollups.InsertRow | central/src/main/java/org/glowroot/central/repo/AgentRollupDao.java:216-226 | the insert adds the row if missing, writes its parent and agent columns, keeps every last capture time and leaves every other row as it was |
| AgentRollups.InsertAncestorsRow | central/src/main/java/org/glowroot/central/repo/AgentRollupDao.java:117-121 | after the ancestor inserts, each rollup of the chain has a row naming the one before it as parent, or none for the outermost, and is not an agent |
| AgentRollups.StoreRowsContents | central/src/main/java/org/glowroot/central/repo/AgentRollupDao.java:113-123 | after store the rows are the old ones plus the agent and its chain; the agent's row names its rollup and is an agent (for an agent id outside the chain); each chain row names its predecessor and is not an agent; last capture times and all other rows are unchanged |
| AgentRollups.StoreThenRead | central/src/main/java/org/glowroot/central/repo/AgentRollupDao.java:113-123 | after store, for an agent id outside its own rollup chain, the loader reads back the agent's rollup and the agent is an agent; no rollup of the chain is an agent, and each reads back its predecessor |
| AgentRollups.IsAgent | central/src/main/java/org/glowroot/central/repo/AgentRollupDao.java:174-183 | an id is an agent exactly when its row exists and its agent column is true |
| AgentRollups.WithCaptureTime | central/src/main/java/org/glowroot/central/repo/AgentRollupDao.java:201-208 | writing a capture time adds the row if missing and leaves every other row as it was |
| AgentRollups.CaptureTimeTouchesOnlyItsColumn | central/src/main/java/org/glowroot/central/repo/AgentRollupDao.java:100-101 | a capture-time write sets the capture time; an existing row keeps its parent and agent columns unchanged; a row it creates has neither; so no parent, no agent column and no agent status changes |
| AgentRollups.WithoutIncomplete | central/src/main/java/org/glowroot/central/repo/AgentRollupDao.java:258-273 | after the cleanup sweep exactly the rows with an agent flag remain, unchanged |
| AgentRollups.CleanUpKeepsAgents | central/src/main/java/org/glowroot/central/repo/AgentRollupDao.java:258-273 | the sweep is idempotent and changes no one's agent status |
| AgentRollups.InsertKeepsCoherence | central/src/main/java/org/glowroot/central/repo/AgentRollupDao.java:216-226 | an insert that invalidates the written id keeps every cached parent equal to what the loader reads |
| AgentRollups.DeleteBreaksCoherence | central/src/main/java/org/glowroot/central/repo/AgentRollupDao.java:210-214 | delete does not invalidate, so a cached parent can outlive its row |
| AgentRollups.Reverse | central/src/main/java/org/glowroot/central/repo/AgentRollupDao.java:196 | Collections.reverse: same length, the element at `i` is the one at `n - 1 - i` |
| AgentRollups.AgentRollupIdsForShape | central/src/main/java/org/glowroot/central/repo/AgentRollupDao.java:185-199 | the agent comes first: alone without a parent; otherwise its rollup is second and every later id is a proper prefix of the one before, the last having no slash |
| AgentRollups.AncestorRowsDone | central/src/main/java/org/glowroot/central/repo/AgentRollupDao.java:117-121 | store's loop run down to position 0 has done the ancestor inserts and dropped exactly the chain's entries from the cache |
| AgentRollups.AgentRollupDao.constructor | central/src/main/java/org/glowroot/central/repo/AgentRollupDao.java:75-111 | construction sweeps the incomplete rows; the cache starts empty and coherent |
| AgentRollups.AgentRollupDao.CleanUpAgentRollupTable | central/src/main/java/org/glowroot/central/repo/AgentRollupDao.java:258-273 | the table loses exactly its rows without agent flag; the cache is unchanged |
| AgentRollups.AgentRollupDao.CachedParent | central/src/main/java/org/glowroot/central/repo/AgentRollupDao.java:190 | a hit returns the cached parent; a miss loads from the table and caches it; a coherent cache stays coherent and returns what the table says |
| AgentRollups.AgentRollupDao.Insert | central/src/main/java/org/glowroot/central/repo/AgentRollupDao.java:216-226 | the table gets the row written and the id's cache entry is dropped; coherence is kept |
| AgentRollups.AgentRollupDao.Store | central/src/main/java/org/glowroot/central/repo/AgentRollupDao.java:113-123 | the table becomes the value-level store result; the agent's and the chain's cache entries are dropped, the others kept; coherence is kept |
| AgentRollups.AgentRollupDao.InsertAncestorRows | central/src/main/java/org/glowroot/central/repo/AgentRollupDao.java:117-121 | the loop performs the ancestor inserts from the innermost out and drops exactly the chain's cache entries |
| AgentRollups.AgentRollupDao.ReadAgentRollupIds | central/src/main/java/org/glowroot/central/repo/AgentRollupDao.java:185-199 | the agent then its rollups innermost first, after the cached (or loaded) parent; with a coherent cache, after the table's parent |
| AgentRollups.AgentRollupDao.UpdateLastCaptureTime | central/src/main/java/org/glowroot/central/repo/AgentRollupDao.java:201-208 | only the capture time column of the row is written; the cache is unchanged and stays coherent |
| AgentRollups.AgentRollupDao.Delete | central/src/main/java/org/glowroot/central/repo/AgentRollupDao.java:210-214 | the row is removed and the cache is left as it is |
| AgentRollups.AgentRollupDao.GroupRows | central/src/main/java/org/glowroot/central/repo/AgentRollupDao.java:127-152 | the top-level set holds exactly the records of the included rows without parent; the multimap lists under each parent the records of the included rows naming it, each once |
| AgentRollups.AgentRollupDao.ReadAgentRollups | central/src/main/java/org/glowroot/central/repo/AgentRollupDao.java:125-159 | one assembled tree per included row without parent, each once, sorted by display |
| AgentRollups.ReadAgentRollupDisplay | central/src/main/java/org/glowroot/central/repo/AgentRollupDao.java:161-172 | the configured display when there is a configuration with a non-empty display, otherwise the id |
| AgentRollups.DisplayNeverEmpty | central/src/main/java/org/glowroot/central/repo/AgentRollupDao.java:161-172 | a non-empty id never gets an empty display |
| AgentRollups.ByDisplayTotalPreorder | central/src/main/java/org/glowroot/central/repo/AgentRollupDao.java:157 | comparing by display (String.compareTo on characters) is total and transitive |
| AgentRollups.CreateAgentRollup | central/src/main/java/org/glowroot/central/repo/AgentRollupDao.java:228-244 | the node of a row carries its id, flag, capture time and display; its children are exactly the included rows naming it, each once, sorted by display, and each is built the same way |
| AgentRollups.CreateChildRollup | central/src/main/java/org/glowroot/central/repo/AgentRollupDao.java:238-240 | the node built for the `k`-th record under an id has that record's id and is assembled |
| AgentRollups.ChainBound | central/src/main/java/org/glowroot/central/repo/AgentRollupDao.java:228-244 | a path of parent links from a top-level row visits each row at most once, which bounds createAgentRollup's recursion |
| AgentRollups.ForestOnlyReachable | central/src/main/java/org/glowroot/central/repo/AgentRollupDao.java:147-156 | every node of the forest is reachable from a top-level row through included rows: orphans and rows below them never appear |
| AgentRollups.ForestHasReachable | central/src/main/java/org/glowroot/central/repo/AgentRollupDao.java:147-156 | every row reachable through included rows appears in the forest |
| AgentRollups.ForestNodeAssembled | central/src/main/java/org/glowroot/central/repo/AgentRollupDao.java:228-244 | every node anywhere in the forest matches its row and has exactly its included child rows as children |

## Left out

- Cassandra and JDBC: statements, result sets, `SQLException`, the async future of
  `updateLastCaptureTime` and the table DDL are left out. The `agent_rollup` table is a map from
  id to row. A write takes effect at once.
- The aggregate DAO: its summary and trace-existence queries (`readOverallTransactionSummary`,
  `readTransactionSummaries`, `shouldHave*Traces`) are not part of this model. They are abstract
  functions of the service. The aggregate range reads are filters over the stored rows.
- The live aggregate collector is not part of this model. An interval collector is its end time
  and maps from keys to what it collected. A missing key stands for a getter returning null.
- The cluster cache (`clusterManager.createCache`): distribution, eviction and concurrent
  loading are left out. The cache is a local map that only insert invalidates.
- The start-up cleanup catches and logs any exception. The model's cleanup does not fail.
- `getQueries` (TransactionCommonService.java:155-161) passes the query aggregates to
  `AggregateMerging.getOrderedAndTruncatedQueries`, which is not part of this model. Only
  `getQueryAggregates` is modelled.
- `AggregateMerging.getMergedProfile` is not part of this model. `GetProfile` starts from the
  merged profile, already laid out as a node table.
- `MergedAggregate` keeps only the eight additive counters. Timers, histogram, query limits and
  `toAggregate(scratchBuffer)` are left out.
- Floating point:
  - `rollUp`'s `Math.ceil(captureTime / (double) width)` is exact integer ceiling division. The
    rounding a double would add for capture times beyond 2^53 is not modelled.
  - `getProfile`'s `sampleCount * truncateLeafPercentage` is an exact product of reals.
  - The sort keys are exact reals. The average time of a summary with zero transactions is taken
    as 0, as the `TransactionSummary` comparators are not part of this model.
- Long and int overflow: counters, `to - from`, `revisedTo - 1` and `lastRolledUpTime + 1` are
  unbounded integers. `Long.MIN_VALUE` is kept only as the initial rollup time.
- Order of hash collections: iteration over the summary map and the set of top-level records is
  an arbitrary choice, so the sorts of their contents promise no order between ties. The order
  of the cleanup's result set does not matter, since every incomplete row is deleted.
- AgentRollups.CreateAgentRollup: the children of a rollup are sorted by display only. In the
  program, `readAgentRollups` reads one partition, whose rows come in ascending id order, and the
  list multimap keeps that order, so the stable `List.sort` leaves children with equal displays
  in id order. The model leaves the order of such children open.
- In `readTransactionSummaries`, the second check for no live intervals
  (TransactionCommonService.java:99-101) can never succeed. The model leaves that dead branch
  out.
- `AgentConfigUpdate` (AgentRollupDao.java:275-279) is unused by the class. `AgentConfigDao` is a
  map from id to display.
- Profile nodes are positions in a table: each node has one parent, and children come after their
  parent. The model does not cover nodes shared between parents, or aliasing.
- `TruncateChildren` keeps the node's ellipsed flag in a local during the iterator loop and writes
  it once after the loop. The Java code sets it on the node inside the loop. The resulting state
  is the same.
- Loop bodies as methods: the inner loops of `mergeInLiveTransactionSummaries`, the loop of
  `store` and the per-child recursion of `createAgentRollup` are methods or functions of their
  own (`PutStoredRecords`, `AddLiveRecords`, `RankValues`, `InsertAncestorRows`,
  `CreateChildRollup`). The three copies of the live getter loop are one generic `GetLive`.
- Ranges.GetRevisedTo: with live intervals it states only that the bound is below the end of the
  first live interval, not that it is exactly one millisecond below. `StoredReadEndsBeforeLive`
  gives the consequence that matters.
- AgentRollups.StoreRowsContents: the agent-row clause is stated only for an agent id outside its
  own rollup chain. For an agent id inside the chain, the later rollup insert overwrites the agent
  row.
- AgentRollups.LexLeq: compares strings by Unicode scalar values, while Java's
  `String.compareTo` compares UTF-16 code units. The two orders differ between supplementary
  characters and characters from U+E000 to U+FFFF, so the display sort of `readAgentRollups` is
  modelled exactly only for text in the Basic Multilingual Plane.
- Aggregates.TransactionSummaryQuery: its `limit` is a natural number. The Java limit is an
  `int`, and a negative one makes `subList` throw; that failure is not modelled.
- The live aggregate collector's promise that it returns interval collectors ordered by end time
  is part of the type `CollectorsInRange` and is not proved.
