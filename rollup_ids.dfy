/** Agent rollup ids are slash-separated paths: "a/b/c" is the rollup "a/b/c" inside the
    rollup "a/b" inside the rollup "a". The chain of enclosing rollups is the list of
    prefixes that end just before a slash, root first, followed by the id itself. */
module RollupIds {

  /** Java's String.indexOf(c, fromIndex): the first position at or after fromIndex (a
      negative fromIndex counts as 0) holding `c`, or -1 when there is none. */
  function IndexOf(s: string, c: char, fromIndex: int): (r: int)
    ensures r == -1 || (0 <= r < |s| && fromIndex <= r && s[r] == c)
    ensures r == -1 ==> forall k :: 0 <= k < |s| && fromIndex <= k ==> s[k] != c
    ensures r != -1 ==> forall k :: 0 <= k < r && fromIndex <= k ==> s[k] != c
    decreases |s| - fromIndex
  {
    if fromIndex < 0 then IndexOf(s, c, 0)
    else if fromIndex >= |s| then -1
    else if s[fromIndex] == c then fromIndex
    else IndexOf(s, c, fromIndex + 1)
  }

  /** The prefixes of `id` that end just before a slash at a position at or after `from`. */
  function SlashPrefixes(id: string, from: nat): seq<string>
    decreases |id| - from
  {
    if from >= |id| then []
    else if id[from] == '/' then [id[..from]] + SlashPrefixes(id, from + 1)
    else SlashPrefixes(id, from + 1)
  }

  /** getAgentRollupIds as a value: the enclosing rollups root first, then the id. */
  function AgentRollupIdsOf(agentRollupId: string): seq<string>
  {
    SlashPrefixes(agentRollupId, 0) + [agentRollupId]
  }

  /** getAgentRollupIds: the loop that repeatedly finds the next slash. */
  method GetAgentRollupIds(agentRollupId: string) returns (agentRollupIds: seq<string>)
    ensures agentRollupIds == AgentRollupIdsOf(agentRollupId)
  {
    agentRollupIds := [];
    var lastFoundIndex := -1;
    var nextFoundIndex := IndexOf(agentRollupId, '/', lastFoundIndex);
    while nextFoundIndex != -1
      invariant -1 <= lastFoundIndex <= |agentRollupId|
      invariant nextFoundIndex == IndexOf(agentRollupId, '/', lastFoundIndex)
      invariant agentRollupIds + SlashPrefixes(agentRollupId, if lastFoundIndex < 0 then 0 else lastFoundIndex)
                == SlashPrefixes(agentRollupId, 0)
      decreases |agentRollupId| - lastFoundIndex
    {
      var from: nat := if lastFoundIndex < 0 then 0 else lastFoundIndex;
      SlashPrefixesSkip(agentRollupId, from, nextFoundIndex);
      agentRollupIds := agentRollupIds + [agentRollupId[..nextFoundIndex]];
      lastFoundIndex := nextFoundIndex + 1;
      nextFoundIndex := IndexOf(agentRollupId, '/', lastFoundIndex);
    }
    SlashPrefixesNone(agentRollupId, if lastFoundIndex < 0 then 0 else lastFoundIndex);
    agentRollupIds := agentRollupIds + [agentRollupId];
  }

  /** Positions without a slash contribute no prefix. */
  lemma {:induction false} SlashPrefixesSkip(id: string, from: nat, to: nat)
    requires from <= to < |id| && id[to] == '/'
    requires forall k :: from <= k < to ==> id[k] != '/'
    ensures SlashPrefixes(id, from) == [id[..to]] + SlashPrefixes(id, to + 1)
    decreases |id| - from
  {
    if from < to {
      SlashPrefixesSkip(id, from + 1, to);
    }
  }

  lemma {:induction false} SlashPrefixesNone(id: string, from: nat)
    requires forall k :: from <= k < |id| ==> id[k] != '/'
    ensures SlashPrefixes(id, from) == []
    decreases |id| - from
  {
    if from < |id| {
      SlashPrefixesNone(id, from + 1);
    }
  }

  /** The number of occurrences of `c` in `s`. */
  function Count(s: string, c: char): nat
  {
    if s == [] then 0 else (if s[0] == c then 1 else 0) + Count(s[1..], c)
  }

  lemma {:induction false} SlashPrefixesCount(id: string, from: nat)
    requires from <= |id|
    ensures |SlashPrefixes(id, from)| == Count(id[from..], '/')
    decreases |id| - from
  {
    if from < |id| {
      SlashPrefixesCount(id, from + 1);
      assert id[from..][1..] == id[from + 1..];
    }
  }

  /** One id per slash, plus the id itself. */
  lemma AgentRollupIdsLength(agentRollupId: string)
    ensures |AgentRollupIdsOf(agentRollupId)| == Count(agentRollupId, '/') + 1
  {
    SlashPrefixesCount(agentRollupId, 0);
    assert agentRollupId[0..] == agentRollupId;
  }

  /** Each slash prefix is the part of `id` before a slash at or after `from`, and they come
      in order of their length. */
  lemma {:induction false} SlashPrefixesShape(id: string, from: nat)
    ensures forall i :: 0 <= i < |SlashPrefixes(id, from)| ==>
              var p := SlashPrefixes(id, from)[i];
              from <= |p| < |id| && p == id[..|p|] && id[|p|] == '/'
    ensures forall i, j :: 0 <= i < j < |SlashPrefixes(id, from)| ==>
              |SlashPrefixes(id, from)[i]| < |SlashPrefixes(id, from)[j]|
    decreases |id| - from
  {
    if from < |id| {
      SlashPrefixesShape(id, from + 1);
      var rest := SlashPrefixes(id, from + 1);
      if id[from] == '/' {
        var r := [id[..from]] + rest;
        assert SlashPrefixes(id, from) == r;
        assert forall i :: 0 < i < |r| ==> r[i] == rest[i - 1];
      }
    }
  }

  /** Every slash position yields a prefix. */
  lemma {:induction false} SlashPrefixesComplete(id: string, from: nat, k: nat)
    requires from <= k < |id| && id[k] == '/'
    ensures id[..k] in SlashPrefixes(id, from)
    decreases k - from
  {
    if from < k {
      SlashPrefixesComplete(id, from + 1, k);
    }
  }

  predicate IsProperPrefix(a: string, b: string)
  {
    |a| < |b| && a == b[..|a|]
  }

  /** The ids are exactly the prefixes before a slash and the id itself; they run from the
      root to the id, each a proper prefix of the next. */
  lemma AgentRollupIdsChain(agentRollupId: string)
    ensures var ids := AgentRollupIdsOf(agentRollupId);
            ids[|ids| - 1] == agentRollupId &&
            (forall i :: 0 <= i < |ids| - 1 ==> IsProperPrefix(ids[i], ids[i + 1])) &&
            (forall p :: p in ids <==>
               p == agentRollupId ||
               exists k :: 0 <= k < |agentRollupId| && agentRollupId[k] == '/' && p == agentRollupId[..k])
  {
    var id := agentRollupId;
    var ids := AgentRollupIdsOf(id);
    var slashes := SlashPrefixes(id, 0);
    SlashPrefixesShape(id, 0);
    forall i | 0 <= i < |ids| - 1 ensures IsProperPrefix(ids[i], ids[i + 1]) {
      assert ids[i] == slashes[i];
      if i + 1 < |slashes| {
        assert ids[i + 1] == slashes[i + 1];
        assert |ids[i]| < |ids[i + 1]|;
        assert ids[i + 1] == id[..|ids[i + 1]|];
      }
    }
    forall p ensures p in ids <==>
        p == id || exists k :: 0 <= k < |id| && id[k] == '/' && p == id[..k]
    {
      if p in slashes {
        var i :| 0 <= i < |slashes| && slashes[i] == p;
        assert id[|p|] == '/' && p == id[..|p|];
      }
      if exists k :: 0 <= k < |id| && id[k] == '/' && p == id[..k] {
        var k :| 0 <= k < |id| && id[k] == '/' && p == id[..k];
        SlashPrefixesComplete(id, 0, k);
      }
    }
  }

  /** The ids are pairwise distinct, since their lengths strictly increase. */
  lemma AgentRollupIdsDistinct(agentRollupId: string)
    ensures var ids := AgentRollupIdsOf(agentRollupId);
            forall i, j :: 0 <= i < j < |ids| ==> |ids[i]| < |ids[j]|
  {
    var ids := AgentRollupIdsOf(agentRollupId);
    var slashes := SlashPrefixes(agentRollupId, 0);
    SlashPrefixesShape(agentRollupId, 0);
    forall i, j | 0 <= i < j < |ids| ensures |ids[i]| < |ids[j]| {
      assert ids[i] == slashes[i];
      if j < |slashes| {
        assert ids[j] == slashes[j];
      }
    }
  }

  lemma {:induction false} FirstSlashPrefix(id: string, from: nat)
    requires SlashPrefixes(id, from) != []
    ensures |SlashPrefixes(id, from)[0]| < |id| && SlashPrefixes(id, from)[0] == id[..|SlashPrefixes(id, from)[0]|]
    ensures forall k :: from <= k < |SlashPrefixes(id, from)[0]| ==> id[k] != '/'
    decreases |id| - from
  {
    if id[from] != '/' {
      FirstSlashPrefix(id, from + 1);
    }
  }

  /** The outermost rollup of a chain contains no slash. */
  lemma OutermostHasNoSlash(agentRollupId: string)
    ensures '/' !in AgentRollupIdsOf(agentRollupId)[0]
  {
    var slashes := SlashPrefixes(agentRollupId, 0);
    if slashes == [] {
      forall k | 0 <= k < |agentRollupId| ensures agentRollupId[k] != '/' {
        if agentRollupId[k] == '/' {
          SlashPrefixesComplete(agentRollupId, 0, k);
        }
      }
    } else {
      FirstSlashPrefix(agentRollupId, 0);
    }
  }

  lemma AgentRollupIdsExample()
    ensures AgentRollupIdsOf("a/b/c") == ["a", "a/b", "a/b/c"]
    ensures AgentRollupIdsOf("abc") == ["abc"]
    ensures AgentRollupIdsOf("a//") == ["a", "a/", "a//"]
  {
    SlashPrefixesSkip("a/b/c", 0, 1);
    SlashPrefixesSkip("a/b/c", 2, 3);
    SlashPrefixesNone("a/b/c", 4);
    assert "a/b/c"[..1] == "a" && "a/b/c"[..3] == "a/b";
    SlashPrefixesNone("abc", 0);
    SlashPrefixesSkip("a//", 0, 1);
    SlashPrefixesSkip("a//", 2, 2);
    SlashPrefixesNone("a//", 3);
    assert "a//"[..1] == "a" && "a//"[..2] == "a/";
  }
}
