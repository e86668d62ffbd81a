/** The agent rollup table of the central collector: one row per agent and per rollup, each
    naming its parent rollup, whether it is an agent and when it last captured data, and a
    read-through cache of parent ids in front of it. Agents and rollups are assembled into a
    forest for the layout service. */
module AgentRollups {
  import opened Wrappers
  import opened Sorting
  import opened RollupIds

  /** A row of agent_rollup; a column that was never written is absent. */
  datatype Row = Row(parent: Option<string>, agent: Option<bool>, lastCaptureTime: Option<int>)

  type Table = map<string, Row>

  /** The general part of an agent's configuration, as far as the display name goes. */
  datatype AgentConfig = AgentConfig(display: string)

  // ---------------------------------------------------------------------------------------
  // The table as a value

  /** AgentRollupIdCacheLoader.load: absent for a missing row or a row without parent. */
  function LoadParent(table: Table, agentId: string): (r: Option<string>)
    ensures r.Some? <==> agentId in table && table[agentId].parent.Some?
    ensures r.Some? ==> r == table[agentId].parent
  {
    if agentId in table then table[agentId].parent else None
  }

  /** Every cached parent is what the loader would read from the table now. */
  ghost predicate CacheCoherent(table: Table, cache: map<string, Option<string>>)
  {
    forall id :: id in cache ==> cache[id] == LoadParent(table, id)
  }

  function LastCaptureTimeOf(table: Table, id: string): Option<int>
  {
    if id in table then table[id].lastCaptureTime else None
  }

  /** The insert statement writes the parent and agent columns of one row; its last capture
      time stays as it was. */
  function InsertRow(table: Table, id: string, parent: Option<string>, agent: bool): (r: Table)
    ensures r.Keys == table.Keys + {id}
    ensures r[id].parent == parent && r[id].agent == Some(agent)
    ensures forall k :: k in r ==> LastCaptureTimeOf(r, k) == LastCaptureTimeOf(table, k)
    ensures forall k :: k in table && k != id ==> r[k] == table[k]
  {
    table[id := Row(parent, Some(agent), LastCaptureTimeOf(table, id))]
  }

  /** The parent written for the rollup at position `j` of a chain: the one before it, or
      none for the outermost. */
  function ParentIn(ids: seq<string>, j: nat): Option<string>
    requires j < |ids|
  {
    if j == 0 then None else Some(ids[j - 1])
  }

  /** The ancestor inserts of store, from the innermost (position n - 1) out to position 0. */
  function InsertAncestors(table: Table, ids: seq<string>, n: nat): Table
    requires n <= |ids|
    decreases n
  {
    if n == 0 then table
    else InsertAncestors(InsertRow(table, ids[n - 1], ParentIn(ids, n - 1), false), ids, n - 1)
  }

  /** The table once the rollups from position `n` of a chain on are inserted, the innermost
      first: the state of store's loop. */
  function InsertsFrom(table: Table, ids: seq<string>, n: nat): Table
    requires n <= |ids|
    decreases |ids| - n
  {
    if n == |ids| then table
    else InsertRow(InsertsFrom(table, ids, n + 1), ids[n], ParentIn(ids, n), false)
  }

  /** The remaining inserts complete the loop's partial work. */
  lemma {:induction false} InsertsFromAncestors(table: Table, ids: seq<string>, n: nat)
    requires n <= |ids|
    ensures InsertAncestors(InsertsFrom(table, ids, n), ids, n) == InsertsFrom(table, ids, 0)
    decreases n
  {
    if n > 0 {
      InsertsFromAncestors(table, ids, n - 1);
    }
  }

  /** The rollups store writes rows for: the chain of the agent's rollup, if it has one. */
  function StoredRollupIds(agentRollupId: Option<string>): seq<string>
  {
    match agentRollupId
    case None => []
    case Some(id) => AgentRollupIdsOf(id)
  }

  /** The table after store(agentId, agentRollupId). */
  function StoreRows(table: Table, agentId: string, agentRollupId: Option<string>): Table
  {
    var ids := StoredRollupIds(agentRollupId);
    InsertAncestors(InsertRow(table, agentId, agentRollupId, true), ids, |ids|)
  }

  ghost predicate LengthsIncrease(ids: seq<string>)
  {
    forall i, j :: 0 <= i < j < |ids| ==> |ids[i]| < |ids[j]|
  }

  lemma {:induction false} InsertAncestorsKeys(table: Table, ids: seq<string>, n: nat)
    requires n <= |ids|
    ensures InsertAncestors(table, ids, n).Keys == table.Keys + set i | 0 <= i < n :: ids[i]
    decreases n
  {
    if n > 0 {
      var t := InsertRow(table, ids[n - 1], ParentIn(ids, n - 1), false);
      InsertAncestorsKeys(t, ids, n - 1);
      assert (set i | 0 <= i < n :: ids[i]) == (set i | 0 <= i < n - 1 :: ids[i]) + {ids[n - 1]};
    }
  }

  lemma {:induction false} InsertAncestorsOthers(table: Table, ids: seq<string>, n: nat, k: string)
    requires n <= |ids| && k in table && forall i :: 0 <= i < n ==> ids[i] != k
    ensures k in InsertAncestors(table, ids, n) && InsertAncestors(table, ids, n)[k] == table[k]
    decreases n
  {
    if n > 0 {
      var t := InsertRow(table, ids[n - 1], ParentIn(ids, n - 1), false);
      InsertAncestorsOthers(t, ids, n - 1, k);
    }
  }

  /** The capture time stays whatever the inserts. */
  lemma {:induction false} InsertAncestorsCaptureTime(table: Table, ids: seq<string>, n: nat, k: string)
    requires n <= |ids|
    ensures LastCaptureTimeOf(InsertAncestors(table, ids, n), k) == LastCaptureTimeOf(table, k)
    decreases n
  {
    if n > 0 {
      var t := InsertRow(table, ids[n - 1], ParentIn(ids, n - 1), false);
      InsertAncestorsCaptureTime(t, ids, n - 1, k);
      if k !in t {
        assert k !in table;
      }
    }
  }

  lemma {:induction false} InsertAncestorsRow(table: Table, ids: seq<string>, n: nat, i: nat)
    requires i < n <= |ids| && LengthsIncrease(ids)
    ensures var r := InsertAncestors(table, ids, n);
            ids[i] in r && r[ids[i]].parent == ParentIn(ids, i) && r[ids[i]].agent == Some(false)
    decreases n
  {
    var t := InsertRow(table, ids[n - 1], ParentIn(ids, n - 1), false);
    if i < n - 1 {
      InsertAncestorsRow(t, ids, n - 1, i);
    } else {
      forall j | 0 <= j < n - 1 ensures ids[j] != ids[i] {
        assert |ids[j]| < |ids[i]|;
      }
      InsertAncestorsOthers(t, ids, n - 1, ids[i]);
    }
  }

  /** What store leaves in the table: the agent's row names its rollup and is an agent
      (unless the agent id is itself one of the rollup ids); each rollup of the chain has a row
      naming the next shorter rollup as parent, and is not an agent; last capture times and
      every other row are as before. */
  lemma StoreRowsContents(table: Table, agentId: string, agentRollupId: Option<string>)
    ensures var r := StoreRows(table, agentId, agentRollupId);
            var ids := StoredRollupIds(agentRollupId);
            (forall k :: k in r <==> k in table || k == agentId || k in ids) &&
            (agentId !in ids ==>
               r[agentId] == Row(agentRollupId, Some(true), LastCaptureTimeOf(table, agentId))) &&
            (forall i :: 0 <= i < |ids| ==>
               r[ids[i]] == Row(ParentIn(ids, i), Some(false), LastCaptureTimeOf(table, ids[i]))) &&
            (forall k :: k in table && k != agentId && k !in ids ==> r[k] == table[k])
  {
    var ids := StoredRollupIds(agentRollupId);
    if agentRollupId.Some? {
      AgentRollupIdsDistinct(agentRollupId.value);
    }
    var t := InsertRow(table, agentId, agentRollupId, true);
    var r := InsertAncestors(t, ids, |ids|);
    InsertAncestorsKeys(t, ids, |ids|);
    forall k ensures k in r <==> k in table || k == agentId || k in ids {
      if k in ids {
        var i :| 0 <= i < |ids| && ids[i] == k;
      }
    }
    forall i | 0 <= i < |ids|
      ensures r[ids[i]] == Row(ParentIn(ids, i), Some(false), LastCaptureTimeOf(table, ids[i]))
    {
      InsertAncestorsRow(t, ids, |ids|, i);
      InsertAncestorsCaptureTime(t, ids, |ids|, ids[i]);
    }
    forall k | k in t && k !in ids ensures r[k] == t[k] {
      InsertAncestorsOthers(t, ids, |ids|, k);
    }
  }

  /** isAgent on a table: a missing row, or a row whose agent column is absent, is not an
      agent (the driver reads an absent boolean as false). */
  function IsAgent(table: Table, agentRollupId: string): (r: bool)
    ensures r <==> agentRollupId in table && table[agentRollupId].agent == Some(true)
  {
    if agentRollupId !in table then false
    else match table[agentRollupId].agent
      case None => false
      case Some(agent) => agent
  }

  /** After store, the agent reads back its rollup through the loader and is an agent, and
      none of the rollups of the chain is. */
  lemma StoreThenRead(table: Table, agentId: string, agentRollupId: Option<string>)
    ensures var r := StoreRows(table, agentId, agentRollupId);
            var ids := StoredRollupIds(agentRollupId);
            (agentId !in ids ==> LoadParent(r, agentId) == agentRollupId && IsAgent(r, agentId)) &&
            (forall i :: 0 <= i < |ids| ==> !IsAgent(r, ids[i])) &&
            (forall i :: 0 <= i < |ids| ==> LoadParent(r, ids[i]) == ParentIn(ids, i))
  {
    StoreRowsContents(table, agentId, agentRollupId);
  }

  /** The row updateLastCaptureTime leaves: only the capture time is written, so a row that
      did not exist comes into being without parent and without agent flag. */
  function WithCaptureTime(table: Table, agentId: string, captureTime: int): (r: Table)
    ensures r.Keys == table.Keys + {agentId}
    ensures forall k :: k in table && k != agentId ==> r[k] == table[k]
  {
    if agentId in table then table[agentId := table[agentId].(lastCaptureTime := Some(captureTime))]
    else table[agentId := Row(None, None, Some(captureTime))]
  }

  /** updateLastCaptureTime writes only the capture time column: no parent and no agent
      column changes, an existing row keeps everything but its capture time, and nothing
      becomes an agent. */
  lemma CaptureTimeTouchesOnlyItsColumn(table: Table, agentId: string, captureTime: int)
    ensures var r := WithCaptureTime(table, agentId, captureTime);
            LastCaptureTimeOf(r, agentId) == Some(captureTime) &&
            (agentId in table ==> r[agentId] == table[agentId].(lastCaptureTime := Some(captureTime))) &&
            (forall k :: k in r ==>
               r[k].parent == (if k in table then table[k].parent else None) &&
               r[k].agent == (if k in table then table[k].agent else None)) &&
            (forall k :: k in r ==> LoadParent(r, k) == LoadParent(table, k)) &&
            (forall k :: k in r ==> IsAgent(r, k) == IsAgent(table, k)) &&
            (agentId !in table ==> r[agentId].agent.None?)
  {
  }

  /** cleanUpAgentRollupTable as a value: the rows that have an agent flag. */
  function WithoutIncomplete(table: Table): (r: Table)
    ensures forall k :: k in r <==> k in table && table[k].agent.Some?
    ensures forall k :: k in r ==> r[k] == table[k]
  {
    map k | k in table && table[k].agent.Some? :: table[k]
  }

  /** The cleanup sweep is idempotent and keeps every agent. */
  lemma CleanUpKeepsAgents(table: Table)
    ensures WithoutIncomplete(WithoutIncomplete(table)) == WithoutIncomplete(table)
    ensures forall k :: IsAgent(WithoutIncomplete(table), k) == IsAgent(table, k)
  {
  }

  /** Inserting keeps the cache coherent once the written id is dropped from it. */
  lemma InsertKeepsCoherence(table: Table, cache: map<string, Option<string>>, id: string,
                             parent: Option<string>, agent: bool)
    requires CacheCoherent(table, cache)
    ensures CacheCoherent(InsertRow(table, id, parent, agent), cache - {id})
  {
  }

  /** Delete does not invalidate, so a cached parent can outlive its row. */
  lemma DeleteBreaksCoherence()
    ensures var table := map["a" := Row(Some("r"), Some(true), None)];
            var cache := map["a" := Some("r")];
            CacheCoherent(table, cache) && !CacheCoherent(table - {"a"}, cache)
  {
    var table := map["a" := Row(Some("r"), Some(true), None)];
    var cache := map["a" := Some("r")];
    assert LoadParent(table - {"a"}, "a") == None;
  }

  // ---------------------------------------------------------------------------------------
  // Reading the chain of an agent

  function Reverse<T>(s: seq<T>): (r: seq<T>)
    ensures |r| == |s| && forall i :: 0 <= i < |s| ==> r[i] == s[|s| - 1 - i]
  {
    seq(|s|, i requires 0 <= i < |s| => s[|s| - 1 - i])
  }

  /** readAgentRollupIds given the cached parent: the agent, then its rollups innermost first. */
  function AgentRollupIdsFor(agentId: string, parent: Option<string>): seq<string>
  {
    match parent
    case None => [agentId]
    case Some(agentRollupId) => [agentId] + Reverse(AgentRollupIdsOf(agentRollupId))
  }

  /** The agent comes first, its rollup second, and from there each id is a proper prefix of
      the one before it; the last is the outermost rollup. */
  lemma AgentRollupIdsForShape(agentId: string, parent: Option<string>)
    ensures var r := AgentRollupIdsFor(agentId, parent);
            r[0] == agentId &&
            (parent.None? ==> r == [agentId]) &&
            (parent.Some? ==>
               |r| >= 2 && r[1] == parent.value &&
               (forall i :: 1 <= i < |r| - 1 ==> IsProperPrefix(r[i + 1], r[i])) &&
               '/' !in r[|r| - 1])
  {
    if parent.Some? {
      var p := parent.value;
      var ids := AgentRollupIdsOf(p);
      var r := AgentRollupIdsFor(agentId, parent);
      AgentRollupIdsChain(p);
      forall i | 1 <= i < |r| - 1 ensures IsProperPrefix(r[i + 1], r[i]) {
        assert r[i] == ids[|ids| - i] && r[i + 1] == ids[|ids| - i - 1];
      }
      assert r[|r| - 1] == ids[0];
      OutermostHasNoSlash(p);
    }
  }

  lemma {:induction false} PrefixChain(ids: seq<string>, i: nat, j: nat)
    requires i <= j < |ids|
    requires forall m :: 0 <= m < |ids| - 1 ==> IsProperPrefix(ids[m], ids[m + 1])
    ensures |ids[i]| <= |ids[j]| && ids[i] == ids[j][..|ids[i]|]
    decreases j - i
  {
    if i < j {
      PrefixChain(ids, i + 1, j);
      assert ids[i] == ids[i + 1][..|ids[i]|];
    }
  }

  /** The cache `after` is `before` without the entries of `ids`. */
  ghost predicate Invalidated(before: map<string, Option<string>>, after: map<string, Option<string>>,
                              ids: seq<string>)
  {
    (forall k :: k in after <==> k in before && k !in ids) &&
    (forall k :: k in after ==> after[k] == before[k])
  }

  /** The cache once the entries of the rollups from position `n` of a chain on are dropped,
      the innermost first. */
  function DropFrom(cache: map<string, Option<string>>, ids: seq<string>, n: nat): map<string, Option<string>>
    requires n <= |ids|
    decreases |ids| - n
  {
    if n == |ids| then cache else DropFrom(cache, ids, n + 1) - {ids[n]}
  }

  lemma {:induction false} DropFromInvalidates(cache: map<string, Option<string>>, ids: seq<string>, n: nat)
    requires n <= |ids|
    ensures Invalidated(cache, DropFrom(cache, ids, n), ids[n..])
    decreases |ids| - n
  {
    if n < |ids| {
      DropFromInvalidates(cache, ids, n + 1);
      assert ids[n..] == [ids[n]] + ids[n + 1..];
    }
  }

  /** Store's loop, run to the outermost rollup, did the ancestor inserts and invalidated
      their cache entries. */
  lemma AncestorRowsDone(table0: Table, cache0: map<string, Option<string>>, table: Table,
                         cache: map<string, Option<string>>, ids: seq<string>)
    requires table == InsertsFrom(table0, ids, 0) && cache == DropFrom(cache0, ids, 0)
    ensures table == InsertAncestors(table0, ids, |ids|)
    ensures Invalidated(cache0, cache, ids)
  {
    DropFromInvalidates(cache0, ids, 0);
    InsertsFromAncestors(table0, ids, |ids|);
    assert ids[0..] == ids;
  }

  // ---------------------------------------------------------------------------------------
  // The DAO

  class AgentRollupDao {
    var table: Table
    var cache: map<string, Option<string>>
    const agentConfigs: map<string, AgentConfig>

    ghost predicate Coherent()
      reads this
    {
      CacheCoherent(table, cache)
    }

    /** The constructor sweeps incomplete rows before the cache exists. */
    constructor (initialTable: Table, agentConfigs: map<string, AgentConfig>)
      ensures this.agentConfigs == agentConfigs
      ensures table == WithoutIncomplete(initialTable) && cache == map[]
      ensures Coherent()
    {
      table := initialTable;
      cache := map[];
      this.agentConfigs := agentConfigs;
      new;
      CleanUpAgentRollupTable();
    }

    /** cleanUpAgentRollupTable: every row without agent flag is deleted. */
    method CleanUpAgentRollupTable()
      modifies this
      ensures table == WithoutIncomplete(old(table))
      ensures cache == old(cache)
    {
      ghost var original := table;
      var remaining := table.Keys;
      while remaining != {}
        invariant cache == old(cache)
        invariant remaining <= original.Keys
        invariant forall k :: k in table <==>
                    k in original && (k in remaining || original[k].agent.Some?)
        invariant forall k :: k in table ==> table[k] == original[k]
        decreases remaining
      {
        var id :| id in remaining;
        if table[id].agent.None? {
          table := table - {id};
        }
        remaining := remaining - {id};
      }
      assert table == WithoutIncomplete(original);
    }

    /** agentRollupIdCache.get: the cached parent, loaded from the table on a miss. */
    method CachedParent(agentId: string) returns (parent: Option<string>)
      modifies this
      ensures table == old(table)
      ensures agentId in old(cache) ==> parent == old(cache)[agentId] && cache == old(cache)
      ensures agentId !in old(cache) ==>
                parent == LoadParent(table, agentId) && cache == old(cache)[agentId := parent]
      ensures old(Coherent()) ==> Coherent() && parent == LoadParent(table, agentId)
    {
      if agentId in cache {
        parent := cache[agentId];
      } else {
        parent := LoadParent(table, agentId);
        cache := cache[agentId := parent];
      }
    }

    /** insert: writes parent and agent flag of one row and invalidates its cache entry. */
    method Insert(agentRollupId: string, parentAgentRollupId: Option<string>, agent: bool)
      modifies this
      ensures table == InsertRow(old(table), agentRollupId, parentAgentRollupId, agent)
      ensures cache == old(cache) - {agentRollupId}
      ensures old(Coherent()) ==> Coherent()
    {
      table := InsertRow(table, agentRollupId, parentAgentRollupId, agent);
      cache := cache - {agentRollupId};
    }

    /** store: the agent's row, then each rollup of its chain. */
    method Store(agentId: string, agentRollupId: Option<string>)
      modifies this
      ensures table == StoreRows(old(table), agentId, agentRollupId)
      ensures Invalidated(old(cache), cache, [agentId] + StoredRollupIds(agentRollupId))
      ensures old(Coherent()) ==> Coherent()
    {
      Insert(agentId, agentRollupId, true);
      if agentRollupId.Some? {
        var agentRollupIds := GetAgentRollupIds(agentRollupId.value);
        InsertAncestorRows(agentRollupIds);
      }
    }

    /** The loop of store: the rollups of the chain from the innermost out, each naming the
        one before it as parent. */
    method InsertAncestorRows(agentRollupIds: seq<string>)
      modifies this
      ensures table == InsertAncestors(old(table), agentRollupIds, |agentRollupIds|)
      ensures Invalidated(old(cache), cache, agentRollupIds)
      ensures old(Coherent()) ==> Coherent()
    {
      ghost var coherent := Coherent();
      var j := |agentRollupIds| - 1;
      while j >= 0
        invariant -1 <= j < |agentRollupIds|
        invariant table == InsertsFrom(old(table), agentRollupIds, j + 1)
        invariant cache == DropFrom(old(cache), agentRollupIds, j + 1)
        invariant coherent ==> Coherent()
        decreases j
      {
        var loopAgentRollupId := agentRollupIds[j];
        var loopParentAgentRollupId := ParentIn(agentRollupIds, j);
        Insert(loopAgentRollupId, loopParentAgentRollupId, false);
        j := j - 1;
      }
      AncestorRowsDone(old(table), old(cache), table, cache, agentRollupIds);
    }

    /** readAgentRollupIds: the agent, then its rollups innermost first, after the parent
        cached for it (or loaded on a miss). */
    method ReadAgentRollupIds(agentId: string) returns (agentRollupIds: seq<string>)
      modifies this
      ensures table == old(table)
      ensures agentRollupIds ==
                AgentRollupIdsFor(agentId, if agentId in old(cache) then old(cache)[agentId]
                                           else LoadParent(table, agentId))
      ensures old(Coherent()) ==>
                Coherent() && agentRollupIds == AgentRollupIdsFor(agentId, LoadParent(table, agentId))
    {
      var agentRollupId := CachedParent(agentId);
      if agentRollupId.None? {
        agentRollupIds := [agentId];
      } else {
        var ids := GetAgentRollupIds(agentRollupId.value);
        agentRollupIds := [agentId] + Reverse(ids);
      }
    }

    /** updateLastCaptureTime: writes only the capture time column. */
    method UpdateLastCaptureTime(agentId: string, captureTime: int)
      modifies this
      ensures table == WithCaptureTime(old(table), agentId, captureTime)
      ensures cache == old(cache)
      ensures old(Coherent()) ==> Coherent()
    {
      CaptureTimeTouchesOnlyItsColumn(table, agentId, captureTime);
      table := WithCaptureTime(table, agentId, captureTime);
    }

    /** delete: removes the row and leaves the cache as it is. */
    method Delete(agentRollupId: string)
      modifies this
      ensures table == old(table) - {agentRollupId}
      ensures cache == old(cache)
    {
      table := table - {agentRollupId};
    }

    /** The pass over the rows of readAgentRollups: rows without agent flag are skipped,
        rows without parent are top-level, the others go under their parent id. */
    method GroupRows() returns (topLevel: set<AgentRollupRecord>,
                                childMultimap: map<string, seq<AgentRollupRecord>>)
      ensures forall r :: r in topLevel ==> IsTopLevelRecord(table, r)
      ensures forall id :: (Included(table, id) && table[id].parent.None?) ==> RecordOf(table, id) in topLevel
      ensures ChildMapOf(table, childMultimap)
    {
      topLevel := {};
      childMultimap := map[];
      var remaining := table.Keys;
      while remaining != {}
        invariant remaining <= table.Keys
        invariant forall r :: r in topLevel ==> IsTopLevelRecord(table, r)
        invariant forall id :: (id in table && id !in remaining && Included(table, id) &&
                                table[id].parent.None?) ==> RecordOf(table, id) in topLevel
        invariant forall p, i :: p in childMultimap && 0 <= i < |childMultimap[p]| ==>
                                   IsChildRecord(table, p, childMultimap[p][i]) &&
                                   childMultimap[p][i].id !in remaining
        invariant forall p, i, j :: p in childMultimap && 0 <= i < j < |childMultimap[p]| ==>
                                      childMultimap[p][i].id != childMultimap[p][j].id
        invariant forall id :: (id in table && id !in remaining && Included(table, id) &&
                                table[id].parent.Some?) ==>
                                 table[id].parent.value in childMultimap &&
                                 RecordOf(table, id) in childMultimap[table[id].parent.value]
        decreases remaining
      {
        var id :| id in remaining;
        var row := table[id];
        remaining := remaining - {id};
        if row.agent.Some? {
          var record := AgentRollupRecord(id, row.agent.value, row.lastCaptureTime);
          if row.parent.None? {
            topLevel := topLevel + {record};
          } else {
            var parentId := row.parent.value;
            var siblings := if parentId in childMultimap then childMultimap[parentId] else [];
            childMultimap := childMultimap[parentId := siblings + [record]];
          }
        }
      }
    }

    /** readAgentRollups: one pass over the rows sorts the included ones into top-level
        records and a parent multimap; each top-level record becomes a tree; the trees are
        sorted by display. */
    method ReadAgentRollups() returns (agentRollups: seq<AgentRollup>)
      ensures IsForest(table, agentConfigs, agentRollups)
    {
      var topLevel, childMultimap := GroupRows();
      var roots := topLevel;
      var unsorted: seq<AgentRollup> := [];
      ghost var done: set<AgentRollupRecord> := {};
      while roots != {}
        invariant Gathered(table, topLevel, roots, done, unsorted)
        invariant RootsAssembled(table, agentConfigs, unsorted)
        decreases roots
      {
        var record :| record in roots;
        assert IsTopLevelRecord(table, record);
        var agentRollup := CreateAgentRollup(table, agentConfigs, record, childMultimap, [record.id]);
        GatherStep(table, topLevel, roots, done, unsorted, record, agentRollup);
        RootsAssembledSnoc(table, agentConfigs, unsorted, agentRollup);
        unsorted := unsorted + [agentRollup];
        roots := roots - {record};
        done := done + {record};
      }
      ByDisplayTotalPreorder();
      agentRollups := Sort(unsorted, ByDisplay);
      SortedRoots(table, agentConfigs, topLevel, unsorted, agentRollups);
    }
  }

  // ---------------------------------------------------------------------------------------
  // The forest of agents and rollups

  /** readAgentRollupDisplay: the configured display, or the id when there is no
      configuration or its display is empty. */
  function ReadAgentRollupDisplay(agentConfigs: map<string, AgentConfig>, agentRollupId: string): (display: string)
    ensures agentRollupId !in agentConfigs || agentConfigs[agentRollupId].display == [] ==>
              display == agentRollupId
    ensures agentRollupId in agentConfigs && agentConfigs[agentRollupId].display != [] ==>
              display == agentConfigs[agentRollupId].display
  {
    if agentRollupId !in agentConfigs then agentRollupId
    else if agentConfigs[agentRollupId].display == [] then agentRollupId
    else agentConfigs[agentRollupId].display
  }

  /** The display is empty only for the empty id. */
  lemma DisplayNeverEmpty(agentConfigs: map<string, AgentConfig>, agentRollupId: string)
    requires agentRollupId != []
    ensures ReadAgentRollupDisplay(agentConfigs, agentRollupId) != []
  {
  }

  datatype AgentRollupRecord = AgentRollupRecord(id: string, agent: bool, lastCaptureTime: Option<int>)

  datatype AgentRollup = AgentRollup(id: string, display: string, agent: bool,
                                     lastCaptureTime: Option<int>, children: seq<AgentRollup>)

  /** Rows written by updateLastCaptureTime alone have no agent flag and are left out. */
  predicate Included(table: Table, id: string)
  {
    id in table && table[id].agent.Some?
  }

  function RecordOf(table: Table, id: string): AgentRollupRecord
    requires Included(table, id)
  {
    AgentRollupRecord(id, table[id].agent.value, table[id].lastCaptureTime)
  }

  ghost predicate IsChildRecord(table: Table, parentId: string, record: AgentRollupRecord)
  {
    Included(table, record.id) && table[record.id].parent == Some(parentId) &&
    record == RecordOf(table, record.id)
  }

  /** The multimap of readAgentRollups: under each parent id, the records of the included rows
      naming it, each once. */
  ghost predicate ChildMapOf(table: Table, childMap: map<string, seq<AgentRollupRecord>>)
  {
    (forall p, i :: p in childMap && 0 <= i < |childMap[p]| ==> IsChildRecord(table, p, childMap[p][i])) &&
    (forall p, i, j :: p in childMap && 0 <= i < j < |childMap[p]| ==>
                         childMap[p][i].id != childMap[p][j].id) &&
    (forall id :: Included(table, id) && table[id].parent.Some? ==>
                    table[id].parent.value in childMap && RecordOf(table, id) in childMap[table[id].parent.value])
  }

  function ChildrenOf(childMap: map<string, seq<AgentRollupRecord>>, id: string): seq<AgentRollupRecord>
  {
    if id in childMap then childMap[id] else []
  }

  /** String.compareTo order on the characters. */
  predicate LexLeq(a: string, b: string)
  {
    if a == [] then true
    else if b == [] then false
    else if a[0] != b[0] then a[0] < b[0]
    else LexLeq(a[1..], b[1..])
  }

  lemma {:induction false} LexLeqTotal(a: string, b: string)
    ensures LexLeq(a, b) || LexLeq(b, a)
  {
    if a != [] && b != [] && a[0] == b[0] {
      LexLeqTotal(a[1..], b[1..]);
    }
  }

  lemma {:induction false} LexLeqTransitive(a: string, b: string, c: string)
    requires LexLeq(a, b) && LexLeq(b, c)
    ensures LexLeq(a, c)
  {
    if a != [] && b != [] && c != [] && a[0] == b[0] && b[0] == c[0] {
      LexLeqTransitive(a[1..], b[1..], c[1..]);
    }
  }

  /** Comparator.comparing(AgentRollup::display). */
  predicate ByDisplay(a: AgentRollup, b: AgentRollup)
  {
    LexLeq(a.display, b.display)
  }

  lemma ByDisplayTotalPreorder()
    ensures TotalPreorder(ByDisplay)
  {
    forall a: AgentRollup, b: AgentRollup ensures ByDisplay(a, b) || ByDisplay(b, a) {
      LexLeqTotal(a.display, b.display);
    }
    forall a: AgentRollup, b: AgentRollup, c: AgentRollup | ByDisplay(a, b) && ByDisplay(b, c)
      ensures ByDisplay(a, c)
    {
      LexLeqTransitive(a.display, b.display, c.display);
    }
  }

  function IdOf(t: AgentRollup): string
  {
    t.id
  }

  /** A node of the forest matches its included row: flag, capture time and display; its
      children are exactly the included rows naming it as parent, each once, sorted by
      display, and each of them is assembled the same way. */
  ghost predicate Assembled(table: Table, agentConfigs: map<string, AgentConfig>, t: AgentRollup)
    decreases t
  {
    Included(table, t.id) && t.agent == table[t.id].agent.value &&
    t.lastCaptureTime == table[t.id].lastCaptureTime &&
    t.display == ReadAgentRollupDisplay(agentConfigs, t.id) &&
    SortedBy(t.children, ByDisplay) &&
    (forall i :: 0 <= i < |t.children| ==>
       t.children[i].id in table && table[t.children[i].id].parent == Some(t.id)) &&
    (forall i, j :: 0 <= i < j < |t.children| ==> t.children[i].id != t.children[j].id) &&
    (forall id :: Included(table, id) && table[id].parent == Some(t.id) ==>
                    exists i :: 0 <= i < |t.children| && t.children[i].id == id) &&
    (forall i :: 0 <= i < |t.children| ==> Assembled(table, agentConfigs, t.children[i]))
  }

  /** A path of rows from a row without parent, each naming the one before it as parent. */
  ghost predicate IsChain(table: Table, path: seq<string>)
  {
    |path| > 0 && (forall i :: 0 <= i < |path| ==> path[i] in table) &&
    table[path[0]].parent.None? &&
    forall i :: 0 < i < |path| ==> table[path[i]].parent == Some(path[i - 1])
  }

  lemma {:induction false} ChainDistinct(table: Table, path: seq<string>, i: nat, j: nat)
    requires IsChain(table, path) && i < j < |path|
    ensures path[i] != path[j]
    decreases i
  {
    if i == 0 {
      assert table[path[j]].parent == Some(path[j - 1]);
    } else if path[i] == path[j] {
      ChainDistinct(table, path, i - 1, j - 1);
    }
  }

  lemma {:induction false} DistinctWithin<T>(s: seq<T>, keys: set<T>)
    requires forall i, j :: 0 <= i < j < |s| ==> s[i] != s[j]
    requires forall i :: 0 <= i < |s| ==> s[i] in keys
    ensures |s| <= |keys|
  {
    if s != [] {
      var rest := s[1..];
      forall i, j | 0 <= i < j < |rest| ensures rest[i] != rest[j] {
        assert rest[i] == s[i + 1] && rest[j] == s[j + 1];
      }
      forall i | 0 <= i < |rest| ensures rest[i] in keys - {s[0]} {
        assert rest[i] == s[i + 1];
      }
      DistinctWithin(rest, keys - {s[0]});
    }
  }

  /** A chain visits each row at most once, so it is no longer than the table. */
  lemma ChainBound(table: Table, path: seq<string>)
    requires IsChain(table, path)
    ensures |path| <= |table.Keys|
  {
    forall i, j | 0 <= i < j < |path| ensures path[i] != path[j] {
      ChainDistinct(table, path, i, j);
    }
    DistinctWithin(path, table.Keys);
  }

  /** createAgentRollup: the node of an included row and, below it, the nodes of the rows in
      the multimap under its id, sorted by display. The ghost path from a top-level row to
      this one bounds the recursion: the table has no cycle through a row without parent. */
  function CreateAgentRollup(table: Table, agentConfigs: map<string, AgentConfig>,
                             record: AgentRollupRecord, childMap: map<string, seq<AgentRollupRecord>>,
                             ghost path: seq<string>): (r: AgentRollup)
    requires ChildMapOf(table, childMap) && IsChain(table, path) && path[|path| - 1] == record.id
    requires Included(table, record.id) && record == RecordOf(table, record.id)
    ensures r.id == record.id && Assembled(table, agentConfigs, r)
    decreases |table.Keys| - |path|, 1
  {
    var kids := ChildrenOf(childMap, record.id);
    var subtrees := seq(|kids|, k requires 0 <= k < |kids| =>
                          CreateChildRollup(table, agentConfigs, record.id, childMap, path, k));
    ByDisplayTotalPreorder();
    var children := Sort(subtrees, ByDisplay);
    SortedChildren(table, agentConfigs, record.id, childMap, subtrees, children);
    AssembledNode(table, agentConfigs, record, children);
    AgentRollup(record.id, ReadAgentRollupDisplay(agentConfigs, record.id), record.agent,
                record.lastCaptureTime, children)
  }

  /** One pass of the loop of createAgentRollup: the node of the `k`-th child record. */
  function CreateChildRollup(table: Table, agentConfigs: map<string, AgentConfig>, id: string,
                             childMap: map<string, seq<AgentRollupRecord>>, ghost path: seq<string>,
                             k: nat): (r: AgentRollup)
    requires ChildMapOf(table, childMap) && IsChain(table, path) && path[|path| - 1] == id
    requires k < |ChildrenOf(childMap, id)|
    ensures r.id == ChildrenOf(childMap, id)[k].id && Assembled(table, agentConfigs, r)
    decreases |table.Keys| - |path|, 0
  {
    ChildChain(table, childMap, path, id, k);
    CreateAgentRollup(table, agentConfigs, ChildrenOf(childMap, id)[k], childMap,
                      path + [ChildrenOf(childMap, id)[k].id])
  }

  /** The path to a child row in the multimap is one row longer and still a chain. */
  lemma ChildChain(table: Table, childMap: map<string, seq<AgentRollupRecord>>, path: seq<string>,
                   id: string, k: nat)
    requires ChildMapOf(table, childMap) && IsChain(table, path) && path[|path| - 1] == id
    requires k < |ChildrenOf(childMap, id)|
    ensures var kid := ChildrenOf(childMap, id)[k];
            IsChain(table, path + [kid.id]) && (path + [kid.id])[|path|] == kid.id &&
            Included(table, kid.id) && kid == RecordOf(table, kid.id) &&
            |path| < |table.Keys|
  {
    var kid := ChildrenOf(childMap, id)[k];
    assert IsChildRecord(table, id, kid);
    ChainBound(table, path + [kid.id]);
  }

  /** The node built from a row and children with the properties of SortedChildren. */
  lemma AssembledNode(table: Table, agentConfigs: map<string, AgentConfig>,
                      record: AgentRollupRecord, children: seq<AgentRollup>)
    requires Included(table, record.id) && record == RecordOf(table, record.id)
    requires SortedBy(children, ByDisplay)
    requires forall i :: 0 <= i < |children| ==>
               children[i].id in table && table[children[i].id].parent == Some(record.id) &&
               Assembled(table, agentConfigs, children[i])
    requires forall i, j :: 0 <= i < j < |children| ==> children[i].id != children[j].id
    requires forall c :: Included(table, c) && table[c].parent == Some(record.id) ==>
               exists i :: 0 <= i < |children| && children[i].id == c
    ensures Assembled(table, agentConfigs,
                      AgentRollup(record.id, ReadAgentRollupDisplay(agentConfigs, record.id), record.agent,
                                  record.lastCaptureTime, children))
  {
  }

  /** The sorted children keep what the unsorted ones had, one per included child row. */
  lemma SortedChildren(table: Table, agentConfigs: map<string, AgentConfig>, id: string,
                       childMap: map<string, seq<AgentRollupRecord>>,
                       subtrees: seq<AgentRollup>, children: seq<AgentRollup>)
    requires ChildMapOf(table, childMap)
    requires |subtrees| == |ChildrenOf(childMap, id)|
    requires forall k :: 0 <= k < |subtrees| ==>
               subtrees[k].id == ChildrenOf(childMap, id)[k].id &&
               Assembled(table, agentConfigs, subtrees[k])
    requires multiset(children) == multiset(subtrees)
    ensures forall i :: 0 <= i < |children| ==>
              children[i].id in table && table[children[i].id].parent == Some(id) &&
              Assembled(table, agentConfigs, children[i])
    ensures forall i, j :: 0 <= i < j < |children| ==> children[i].id != children[j].id
    ensures forall c :: Included(table, c) && table[c].parent == Some(id) ==>
              exists i :: 0 <= i < |children| && children[i].id == c
  {
    SortedChildrenRows(table, agentConfigs, id, childMap, subtrees, children);
    SortedChildrenDistinct(childMap, id, subtrees, children);
    SortedChildrenComplete(table, id, childMap, subtrees, children);
  }

  lemma SortedChildrenRows(table: Table, agentConfigs: map<string, AgentConfig>, id: string,
                           childMap: map<string, seq<AgentRollupRecord>>,
                           subtrees: seq<AgentRollup>, children: seq<AgentRollup>)
    requires ChildMapOf(table, childMap)
    requires |subtrees| == |ChildrenOf(childMap, id)|
    requires forall k :: 0 <= k < |subtrees| ==>
               subtrees[k].id == ChildrenOf(childMap, id)[k].id &&
               Assembled(table, agentConfigs, subtrees[k])
    requires multiset(children) == multiset(subtrees)
    ensures forall i :: 0 <= i < |children| ==>
              children[i].id in table && table[children[i].id].parent == Some(id) &&
              Assembled(table, agentConfigs, children[i])
  {
    var kids := ChildrenOf(childMap, id);
    forall i | 0 <= i < |children|
      ensures children[i].id in table && table[children[i].id].parent == Some(id) &&
              Assembled(table, agentConfigs, children[i])
    {
      assert children[i] in multiset(subtrees);
      var k :| 0 <= k < |subtrees| && subtrees[k] == children[i];
      assert IsChildRecord(table, id, kids[k]);
    }
  }

  lemma SortedChildrenDistinct(childMap: map<string, seq<AgentRollupRecord>>, id: string,
                               subtrees: seq<AgentRollup>, children: seq<AgentRollup>)
    requires forall p, i, j :: p in childMap && 0 <= i < j < |childMap[p]| ==>
                                 childMap[p][i].id != childMap[p][j].id
    requires |subtrees| == |ChildrenOf(childMap, id)|
    requires forall k :: 0 <= k < |subtrees| ==> subtrees[k].id == ChildrenOf(childMap, id)[k].id
    requires multiset(children) == multiset(subtrees)
    ensures forall i, j :: 0 <= i < j < |children| ==> children[i].id != children[j].id
  {
    forall i, j | 0 <= i < j < |subtrees| ensures IdOf(subtrees[i]) != IdOf(subtrees[j]) {
    }
    PermutationKeepsKeysDistinct(subtrees, children, IdOf);
  }

  lemma SortedChildrenComplete(table: Table, id: string, childMap: map<string, seq<AgentRollupRecord>>,
                               subtrees: seq<AgentRollup>, children: seq<AgentRollup>)
    requires forall c :: Included(table, c) && table[c].parent.Some? ==>
                           table[c].parent.value in childMap && RecordOf(table, c) in childMap[table[c].parent.value]
    requires |subtrees| == |ChildrenOf(childMap, id)|
    requires forall k :: 0 <= k < |subtrees| ==> subtrees[k].id == ChildrenOf(childMap, id)[k].id
    requires multiset(children) == multiset(subtrees)
    ensures forall c :: Included(table, c) && table[c].parent == Some(id) ==>
              exists i :: 0 <= i < |children| && children[i].id == c
  {
    var kids := ChildrenOf(childMap, id);
    forall c | Included(table, c) && table[c].parent == Some(id)
      ensures exists i :: 0 <= i < |children| && children[i].id == c
    {
      var k :| 0 <= k < |kids| && kids[k] == RecordOf(table, c);
      assert subtrees[k] in multiset(children);
      var i :| 0 <= i < |children| && children[i] == subtrees[k];
    }
  }

  ghost predicate IsTopLevelRecord(table: Table, record: AgentRollupRecord)
  {
    Included(table, record.id) && table[record.id].parent.None? && record == RecordOf(table, record.id)
  }

  /** Trees of top-level rows, each assembled. */
  ghost predicate RootsAssembled(table: Table, agentConfigs: map<string, AgentConfig>, trees: seq<AgentRollup>)
  {
    forall i :: 0 <= i < |trees| ==>
      trees[i].id in table && table[trees[i].id].parent.None? && Assembled(table, agentConfigs, trees[i])
  }

  /** The result of readAgentRollups: one assembled tree per included row without parent,
      each once, sorted by display. */
  ghost predicate IsForest(table: Table, agentConfigs: map<string, AgentConfig>, forest: seq<AgentRollup>)
  {
    SortedBy(forest, ByDisplay) &&
    RootsAssembled(table, agentConfigs, forest) &&
    (forall i, j :: 0 <= i < j < |forest| ==> forest[i].id != forest[j].id) &&
    (forall id :: Included(table, id) && table[id].parent.None? ==>
                    exists i :: 0 <= i < |forest| && forest[i].id == id)
  }

  /** The loop of readAgentRollups over the top-level records: the trees built so far are
      those of the records done, each once. */
  ghost predicate Gathered(table: Table, topLevel: set<AgentRollupRecord>,
                           roots: set<AgentRollupRecord>, done: set<AgentRollupRecord>,
                           unsorted: seq<AgentRollup>)
  {
    roots + done == topLevel && roots !! done &&
    (forall i :: 0 <= i < |unsorted| ==>
       Included(table, unsorted[i].id) && RecordOf(table, unsorted[i].id) in done) &&
    (forall i, j :: 0 <= i < j < |unsorted| ==> unsorted[i].id != unsorted[j].id) &&
    (forall r :: r in done ==> exists i :: 0 <= i < |unsorted| && unsorted[i].id == r.id)
  }

  lemma GatherStep(table: Table, topLevel: set<AgentRollupRecord>, roots: set<AgentRollupRecord>,
                   done: set<AgentRollupRecord>, unsorted: seq<AgentRollup>,
                   record: AgentRollupRecord, tree: AgentRollup)
    requires forall r :: r in topLevel ==> IsTopLevelRecord(table, r)
    requires Gathered(table, topLevel, roots, done, unsorted)
    requires record in roots && tree.id == record.id
    ensures Gathered(table, topLevel, roots - {record}, done + {record}, unsorted + [tree])
  {
    var next := unsorted + [tree];
    assert forall i :: 0 <= i < |unsorted| ==> next[i] == unsorted[i];
    assert next[|unsorted|] == tree;
    assert RecordOf(table, record.id) == record;
    assert forall i :: 0 <= i < |unsorted| ==> unsorted[i].id != record.id;
  }

  lemma RootsAssembledSnoc(table: Table, agentConfigs: map<string, AgentConfig>,
                           trees: seq<AgentRollup>, tree: AgentRollup)
    requires RootsAssembled(table, agentConfigs, trees)
    requires tree.id in table && table[tree.id].parent.None? && Assembled(table, agentConfigs, tree)
    ensures RootsAssembled(table, agentConfigs, trees + [tree])
  {
    var next := trees + [tree];
    assert forall i :: 0 <= i < |trees| ==> next[i] == trees[i];
  }

  lemma SortedRoots(table: Table, agentConfigs: map<string, AgentConfig>, topLevel: set<AgentRollupRecord>,
                    unsorted: seq<AgentRollup>, forest: seq<AgentRollup>)
    requires forall r :: r in topLevel ==> IsTopLevelRecord(table, r)
    requires forall id :: Included(table, id) && table[id].parent.None? ==> RecordOf(table, id) in topLevel
    requires RootsAssembled(table, agentConfigs, unsorted)
    requires forall i, j :: 0 <= i < j < |unsorted| ==> unsorted[i].id != unsorted[j].id
    requires forall r :: r in topLevel ==> exists i :: 0 <= i < |unsorted| && unsorted[i].id == r.id
    requires multiset(forest) == multiset(unsorted) && SortedBy(forest, ByDisplay)
    ensures IsForest(table, agentConfigs, forest)
  {
    forall i | 0 <= i < |forest|
      ensures forest[i].id in table && table[forest[i].id].parent.None? &&
              Assembled(table, agentConfigs, forest[i])
    {
      assert forest[i] in multiset(unsorted);
    }
    forall i, j | 0 <= i < j < |unsorted| ensures IdOf(unsorted[i]) != IdOf(unsorted[j]) {
    }
    PermutationKeepsKeysDistinct(unsorted, forest, IdOf);
    forall id | Included(table, id) && table[id].parent.None?
      ensures exists i :: 0 <= i < |forest| && forest[i].id == id
    {
      var k :| 0 <= k < |unsorted| && unsorted[k].id == RecordOf(table, id).id;
      assert unsorted[k] in multiset(forest);
    }
  }

  /** `n` is `t` or a node below it. */
  ghost predicate InTree(n: AgentRollup, t: AgentRollup)
    decreases t
  {
    n == t || exists i :: 0 <= i < |t.children| && InTree(n, t.children[i])
  }

  /** A chain of included rows. */
  ghost predicate IsIncludedChain(table: Table, path: seq<string>)
  {
    IsChain(table, path) && forall k :: 0 <= k < |path| ==> Included(table, path[k])
  }

  /** A row reachable from a top-level row through included rows only. */
  ghost predicate Reachable(table: Table, id: string)
  {
    exists path :: IsIncludedChain(table, path) && path[|path| - 1] == id
  }

  lemma NodesReachable(table: Table, agentConfigs: map<string, AgentConfig>,
                       t: AgentRollup, path: seq<string>, n: AgentRollup)
    requires Assembled(table, agentConfigs, t) && IsIncludedChain(table, path) && path[|path| - 1] == t.id
    requires InTree(n, t)
    ensures Reachable(table, n.id) && Assembled(table, agentConfigs, n)
  {
    AssembledLinked(table, agentConfigs, t);
    var p := NodePath(table, t, path, n);
    assert IsIncludedChain(table, p) && p[|p| - 1] == n.id;
    NodeAssembled(table, agentConfigs, t, n);
  }

  /** Every child of every node is an included row naming that node as parent. */
  ghost predicate Linked(table: Table, t: AgentRollup)
    decreases t
  {
    forall i :: 0 <= i < |t.children| ==>
      Included(table, t.children[i].id) && table[t.children[i].id].parent == Some(t.id) &&
      Linked(table, t.children[i])
  }

  lemma {:induction false} AssembledLinked(table: Table, agentConfigs: map<string, AgentConfig>,
                                           t: AgentRollup)
    requires Assembled(table, agentConfigs, t)
    ensures Linked(table, t)
    decreases t
  {
    forall i | 0 <= i < |t.children|
      ensures Included(table, t.children[i].id) && table[t.children[i].id].parent == Some(t.id) &&
              Linked(table, t.children[i])
    {
      AssembledChild(table, agentConfigs, t, i);
      AssembledLinked(table, agentConfigs, t.children[i]);
    }
  }

  /** The chain of included rows from a top-level row down to a node of its tree. */
  lemma {:induction false} NodePath(table: Table, t: AgentRollup, path: seq<string>, n: AgentRollup)
    returns (p: seq<string>)
    requires Linked(table, t) && IsIncludedChain(table, path) && path[|path| - 1] == t.id
    requires InTree(n, t)
    ensures IsIncludedChain(table, p) && p[|p| - 1] == n.id
    decreases t
  {
    if n == t {
      p := path;
    } else {
      var i :| 0 <= i < |t.children| && InTree(n, t.children[i]);
      var c := t.children[i];
      IncludedChainExtend(table, path, c.id);
      p := NodePath(table, c, path + [c.id], n);
    }
  }

  /** Every node of an assembled tree is assembled. */
  lemma {:induction false} NodeAssembled(table: Table, agentConfigs: map<string, AgentConfig>,
                                         t: AgentRollup, n: AgentRollup)
    requires Assembled(table, agentConfigs, t) && InTree(n, t)
    ensures Assembled(table, agentConfigs, n)
    decreases t
  {
    if n != t {
      var i :| 0 <= i < |t.children| && InTree(n, t.children[i]);
      AssembledChild(table, agentConfigs, t, i);
      NodeAssembled(table, agentConfigs, t.children[i], n);
    }
  }

  /** A child of an assembled node is an assembled node of an included row naming it. */
  lemma AssembledChild(table: Table, agentConfigs: map<string, AgentConfig>, t: AgentRollup, i: nat)
    requires Assembled(table, agentConfigs, t) && i < |t.children|
    ensures Assembled(table, agentConfigs, t.children[i])
    ensures Included(table, t.children[i].id) && table[t.children[i].id].parent == Some(t.id)
  {
    assert Assembled(table, agentConfigs, t.children[i]);
  }

  /** Every included row naming an assembled node as parent is one of its children. */
  lemma AssembledHasChild(table: Table, agentConfigs: map<string, AgentConfig>, t: AgentRollup,
                          id: string)
    requires Assembled(table, agentConfigs, t)
    requires Included(table, id) && table[id].parent == Some(t.id)
    ensures exists k :: 0 <= k < |t.children| && t.children[k].id == id
  {
  }

  lemma IncludedChainExtend(table: Table, path: seq<string>, id: string)
    requires IsIncludedChain(table, path)
    requires Included(table, id) && table[id].parent == Some(path[|path| - 1])
    ensures IsIncludedChain(table, path + [id])
  {
    var p := path + [id];
    assert forall k :: 0 <= k < |path| ==> p[k] == path[k];
  }

  lemma IncludedChainPrefix(table: Table, path: seq<string>)
    requires IsIncludedChain(table, path) && |path| > 1
    ensures IsIncludedChain(table, path[..|path| - 1])
    ensures table[path[|path| - 1]].parent == Some(path[|path| - 2])
  {
    var p := path[..|path| - 1];
    assert forall k :: 0 <= k < |p| ==> p[k] == path[k];
  }

  lemma {:induction false} ChildInTree(n: AgentRollup, t: AgentRollup, i: nat)
    requires InTree(n, t) && i < |n.children|
    ensures InTree(n.children[i], t)
    decreases t
  {
    if n != t {
      var j :| 0 <= j < |t.children| && InTree(n, t.children[j]);
      ChildInTree(n, t.children[j], i);
    }
  }

  /** Only reachable rows appear in the forest: a row whose parent row is missing or left out,
      or any row below it, appears nowhere. */
  lemma ForestOnlyReachable(table: Table, agentConfigs: map<string, AgentConfig>,
                            forest: seq<AgentRollup>, i: nat, n: AgentRollup)
    requires IsForest(table, agentConfigs, forest) && i < |forest| && InTree(n, forest[i])
    ensures Reachable(table, n.id)
  {
    NodesReachable(table, agentConfigs, forest[i], [forest[i].id], n);
  }

  lemma ForestNodeAssembled(table: Table, agentConfigs: map<string, AgentConfig>,
                            forest: seq<AgentRollup>, i: nat, n: AgentRollup)
    requires IsForest(table, agentConfigs, forest) && i < |forest| && InTree(n, forest[i])
    ensures Assembled(table, agentConfigs, n)
  {
    NodeAssembled(table, agentConfigs, forest[i], n);
  }

  /** Every reachable row appears in the forest. */
  lemma ForestHasReachable(table: Table, agentConfigs: map<string, AgentConfig>,
                           forest: seq<AgentRollup>, path: seq<string>)
    requires IsForest(table, agentConfigs, forest) && IsIncludedChain(table, path)
    ensures exists i, n :: 0 <= i < |forest| && InTree(n, forest[i]) && n.id == path[|path| - 1]
  {
    var i, n := ForestNodeAt(table, agentConfigs, forest, path);
  }

  /** The tree and the node where a chain of included rows ends. */
  lemma {:induction false} ForestNodeAt(table: Table, agentConfigs: map<string, AgentConfig>,
                                        forest: seq<AgentRollup>, path: seq<string>)
    returns (i: nat, n: AgentRollup)
    requires IsForest(table, agentConfigs, forest) && IsIncludedChain(table, path)
    ensures i < |forest| && InTree(n, forest[i]) && n.id == path[|path| - 1]
    decreases |path|
  {
    var last := path[|path| - 1];
    if |path| == 1 {
      assert Included(table, last) && table[last].parent.None?;
      i :| 0 <= i < |forest| && forest[i].id == last;
      n := forest[i];
    } else {
      var init := path[..|path| - 1];
      IncludedChainPrefix(table, path);
      var j, m := ForestNodeAt(table, agentConfigs, forest, init);
      ForestNodeAssembled(table, agentConfigs, forest, j, m);
      AssembledHasChild(table, agentConfigs, m, last);
      var k :| 0 <= k < |m.children| && m.children[k].id == last;
      ChildInTree(m, forest[j], k);
      i, n := j, m.children[k];
    }
  }
}
