/** The read-time rollup fold: consecutive fine aggregates whose capture times fall in the same
    fixed-width, right-closed bucket are merged into one coarse aggregate. */
module Rollup {
  import opened Wrappers
  import opened Aggregates

  type PosInt = x: int | x > 0 witness 1

  /** Java's Long.MIN_VALUE, the initial "current rollup time" of the fold. */
  const LongMinValue: int := -0x8000_0000_0000_0000

  /** ceil(captureTime / width), from Dafny's Euclidean division (a floor for a positive width). */
  function CeilDiv(captureTime: int, width: PosInt): int
  {
    -((-captureTime) / width)
  }

  /** The bucket of a capture time: ceil(captureTime / width) * width, the close of the
      right-closed interval (bucket - width, bucket] that holds the capture time. */
  function RollupTime(captureTime: int, width: PosInt): int
  {
    CeilDiv(captureTime, width) * width
  }

  lemma {:induction false} MulMonotone(a: int, b: int, width: PosInt)
    requires a <= b
    ensures a * width <= b * width
  {
    assert b * width - a * width == (b - a) * width;
  }

  lemma {:induction false} CeilDivBounds(captureTime: int, width: PosInt)
    ensures (CeilDiv(captureTime, width) - 1) * width < captureTime
    ensures captureTime <= CeilDiv(captureTime, width) * width
  {
    var q, m := (-captureTime) / width, (-captureTime) % width;
    assert -captureTime == q * width + m && 0 <= m < width;
    assert (-q) * width == -(q * width);
    assert (-q - 1) * width == -(q * width) - width;
  }

  /** The bucket holds the capture time: bucket - width < captureTime <= bucket. */
  lemma {:induction false} RollupTimeBounds(captureTime: int, width: PosInt)
    ensures RollupTime(captureTime, width) - width < captureTime <= RollupTime(captureTime, width)
  {
    CeilDivBounds(captureTime, width);
    var c := CeilDiv(captureTime, width);
    assert (c - 1) * width == c * width - width;
  }

  /** The bucket is the only multiple of the width in [captureTime, captureTime + width). */
  lemma {:induction false} RollupTimeUnique(captureTime: int, width: PosInt, k: int)
    requires captureTime <= k * width < captureTime + width
    ensures k * width == RollupTime(captureTime, width)
  {
    var c := CeilDiv(captureTime, width);
    CeilDivBounds(captureTime, width);
    if k < c {
      MulMonotone(k, c - 1, width);
    } else if k > c {
      MulMonotone(c + 1, k, width);
    }
  }

  /** A capture time exactly on a multiple of the width stays in the bucket it closes. */
  lemma {:induction false} RollupTimeOnBoundary(k: int, width: PosInt)
    ensures RollupTime(k * width, width) == k * width
  {
    RollupTimeUnique(k * width, width, k);
  }

  lemma {:induction false} RollupTimeMonotone(t1: int, t2: int, width: PosInt)
    requires t1 <= t2
    ensures RollupTime(t1, width) <= RollupTime(t2, width)
  {
    var c1, c2 := CeilDiv(t1, width), CeilDiv(t2, width);
    CeilDivBounds(t1, width);
    CeilDivBounds(t2, width);
    if c1 > c2 {
      MulMonotone(c2, c1 - 1, width);
    }
    MulMonotone(c1, c2, width);
  }

  /** Example from the bucketing rule: with 60000 ms buckets, 120000 belongs to 120000. */
  lemma {:induction false} RollupTimeExample()
    ensures RollupTime(120000, 60000) == 120000
    ensures RollupTime(120001, 60000) == 180000
  {
    RollupTimeOnBoundary(2, 60000);
    RollupTimeUnique(120001, 60000, 3);
  }

  function Bucket(a: Aggregate, bucket: int -> int): int
  {
    bucket(a.captureTime)
  }

  /** The bucket function of the fold: the rollup time for a fixed width. */
  function RollupTimes(width: PosInt): int -> int
  {
    t => RollupTime(t, width)
  }

  /** A later capture time never falls in an earlier bucket. */
  ghost predicate MonotoneBuckets(bucket: int -> int)
  {
    forall t1, t2 :: t1 <= t2 ==> bucket(t1) <= bucket(t2)
  }

  lemma RollupTimesMonotone(width: PosInt)
    ensures MonotoneBuckets(RollupTimes(width))
  {
    forall t1, t2 | t1 <= t2 ensures RollupTime(t1, width) <= RollupTime(t2, width) {
      RollupTimeMonotone(t1, t2, width);
    }
  }

  /** Length of the maximal run of consecutive inputs, from the first, with the first's bucket. */
  function RunLength(s: seq<Aggregate>, bucket: int -> int): (n: nat)
    requires |s| > 0
    ensures 1 <= n <= |s|
  {
    if |s| == 1 || Bucket(s[1], bucket) != Bucket(s[0], bucket) then 1
    else 1 + RunLength(s[1..], bucket)
  }

  /** The run is maximal: all of it has the first input's bucket, and the input after it
      does not. */
  lemma {:induction false} RunLengthMaximal(s: seq<Aggregate>, bucket: int -> int)
    requires |s| > 0
    ensures var n := RunLength(s, bucket);
            (forall i :: 0 <= i < n ==> Bucket(s[i], bucket) == Bucket(s[0], bucket)) &&
            (n < |s| ==> Bucket(s[n], bucket) != Bucket(s[0], bucket))
  {
    if |s| > 1 && Bucket(s[1], bucket) == Bucket(s[0], bucket) {
      RunLengthMaximal(s[1..], bucket);
      var n := RunLength(s, bucket);
      forall i | 1 <= i < n ensures Bucket(s[i], bucket) == Bucket(s[0], bucket) {
        assert s[i] == s[1..][i - 1];
      }
    }
  }

  /** A run merged into one aggregate: the last capture time and the summed totals. */
  function MergeRun(run: seq<Aggregate>): Aggregate
    requires |run| > 0
  {
    Timed(run[|run| - 1].captureTime, SumTotals(run))
  }

  /** Reference definition of the fold: one merged aggregate per maximal run of consecutive
      inputs with equal bucket, in input order. */
  function RollUpSpec(s: seq<Aggregate>, bucket: int -> int): seq<Aggregate>
    decreases |s|
  {
    if s == [] then []
    else
      var n := RunLength(s, bucket);
      [MergeRun(s[..n])] + RollUpSpec(s[n..], bucket)
  }

  lemma {:induction false} RunLengthSnoc(s: seq<Aggregate>, x: Aggregate, bucket: int -> int)
    requires |s| > 0
    ensures RunLength(s + [x], bucket) ==
            if RunLength(s, bucket) < |s| then RunLength(s, bucket)
            else if Bucket(x, bucket) == Bucket(s[|s| - 1], bucket) then |s| + 1
            else |s|
  {
    if |s| > 1 && Bucket(s[1], bucket) == Bucket(s[0], bucket) {
      assert (s + [x])[1..] == s[1..] + [x];
      RunLengthSnoc(s[1..], x, bucket);
    }
  }

  /** The appended result of the fold when one input joins the last bucket or opens a new one. */
  function Extended(prev: seq<Aggregate>, x: Aggregate, joins: bool): seq<Aggregate>
    requires |prev| > 0
  {
    if joins then prev[..|prev| - 1] + [Timed(x.captureTime, Plus(prev[|prev| - 1].value, x.value))]
    else prev + [Timed(x.captureTime, Plus(ZeroTotals, x.value))]
  }

  lemma {:induction false} MergeRunSnoc(s: seq<Aggregate>, x: Aggregate)
    ensures MergeRun(s + [x]) ==
            Timed(x.captureTime, Plus(if s == [] then ZeroTotals else MergeRun(s).value, x.value))
  {
    assert (s + [x])[..|s|] == s;
    if s == [] {
      assert s + [x] == [x] && [x][..0] == [];
      assert SumTotals([x]) == Plus(SumTotals([]), x.value);
    }
  }

  /** The fold of a single run is its merge. */
  lemma RollUpSpecOneRun(s: seq<Aggregate>, bucket: int -> int)
    requires |s| > 0 && RunLength(s, bucket) == |s|
    ensures RollUpSpec(s, bucket) == [MergeRun(s)]
  {
    assert s[..|s|] == s && s[|s|..] == [];
  }

  lemma RollUpSpecSingle(x: Aggregate, bucket: int -> int)
    ensures RollUpSpec([x], bucket) == [Timed(x.captureTime, Plus(ZeroTotals, x.value))]
  {
    RollUpSpecOneRun([x], bucket);
    MergeRunSnoc([], x);
    assert [] + [x] == [x];
  }

  lemma {:induction false} RollUpSpecSnocOneRun(s: seq<Aggregate>, x: Aggregate, bucket: int -> int)
    requires |s| > 0 && RunLength(s, bucket) == |s|
    ensures RollUpSpec(s, bucket) == [MergeRun(s)]
    ensures RollUpSpec(s + [x], bucket) ==
            Extended([MergeRun(s)], x, Bucket(x, bucket) == Bucket(s[|s| - 1], bucket))
  {
    RollUpSpecOneRun(s, bucket);
    if Bucket(x, bucket) == Bucket(s[|s| - 1], bucket) {
      RollUpSpecSnocJoins(s, x, bucket);
    } else {
      RollUpSpecSnocOpens(s, x, bucket);
    }
  }

  lemma RollUpSpecSnocJoins(s: seq<Aggregate>, x: Aggregate, bucket: int -> int)
    requires |s| > 0 && RunLength(s, bucket) == |s|
    requires Bucket(x, bucket) == Bucket(s[|s| - 1], bucket)
    ensures RollUpSpec(s + [x], bucket) == Extended([MergeRun(s)], x, true)
  {
    var sx := s + [x];
    RunLengthSnoc(s, x, bucket);
    RollUpSpecOneRun(sx, bucket);
    MergeRunSnoc(s, x);
    assert [MergeRun(s)][..0] == [];
  }

  lemma RollUpSpecSnocOpens(s: seq<Aggregate>, x: Aggregate, bucket: int -> int)
    requires |s| > 0 && RunLength(s, bucket) == |s|
    requires Bucket(x, bucket) != Bucket(s[|s| - 1], bucket)
    ensures RollUpSpec(s + [x], bucket) == Extended([MergeRun(s)], x, false)
  {
    var sx := s + [x];
    RunLengthSnoc(s, x, bucket);
    assert sx[..|s|] == s && sx[|s|..] == [x];
    assert RollUpSpec(sx, bucket) == [MergeRun(s)] + RollUpSpec([x], bucket);
    RollUpSpecSingle(x, bucket);
  }

  /** What appending one input does to the fold: it joins the last bucket or opens a new one. */
  lemma {:induction false} RollUpSpecSnoc(s: seq<Aggregate>, x: Aggregate, bucket: int -> int)
    requires |s| > 0
    ensures |RollUpSpec(s, bucket)| > 0
    ensures RollUpSpec(s + [x], bucket) ==
            Extended(RollUpSpec(s, bucket), x, Bucket(x, bucket) == Bucket(s[|s| - 1], bucket))
    decreases |s|, 1
  {
    if RunLength(s, bucket) < |s| {
      RollUpSpecSnocLaterRun(s, x, bucket);
    } else {
      RollUpSpecSnocOneRun(s, x, bucket);
    }
  }

  lemma {:induction false} RollUpSpecSnocLaterRun(s: seq<Aggregate>, x: Aggregate, bucket: int -> int)
    requires |s| > 0 && RunLength(s, bucket) < |s|
    ensures |RollUpSpec(s, bucket)| > 0
    ensures RollUpSpec(s + [x], bucket) ==
            Extended(RollUpSpec(s, bucket), x, Bucket(x, bucket) == Bucket(s[|s| - 1], bucket))
    decreases |s|, 0
  {
    var n := RunLength(s, bucket);
    var sx := s + [x];
    RunLengthSnoc(s, x, bucket);
    var m := MergeRun(s[..n]);
    var tail := s[n..];
    assert sx[..n] == s[..n];
    assert sx[n..] == tail + [x];
    var p := RollUpSpec(tail, bucket);
    assert RollUpSpec(s, bucket) == [m] + p;
    assert RollUpSpec(sx, bucket) == [m] + RollUpSpec(tail + [x], bucket);
    RollUpSpecSnoc(tail, x, bucket);
    assert tail[|tail| - 1] == s[|s| - 1];
    ExtendedCons(m, p, x, Bucket(x, bucket) == Bucket(s[|s| - 1], bucket));
  }

  /** Extending after a first aggregate is extending the rest. */
  lemma ExtendedCons(m: Aggregate, p: seq<Aggregate>, x: Aggregate, joins: bool)
    requires |p| > 0
    ensures [m] + Extended(p, x, joins) == Extended([m] + p, x, joins)
  {
    var prev := [m] + p;
    assert prev[..|prev| - 1] == [m] + p[..|p| - 1];
  }

  /** rollUp: folds the ordered non-rolled-up aggregates into bucketed aggregates, keeping one
      accumulator (the current merged aggregate and its rollup time). */
  method RollUp(width: PosInt, orderedNonRolledUp: seq<Aggregate>) returns (rolledUp: seq<Aggregate>)
    ensures rolledUp == RollUpSpec(orderedNonRolledUp, RollupTimes(width))
  {
    var s := orderedNonRolledUp;
    ghost var bucket := RollupTimes(width);
    rolledUp := [];
    var curr: Option<Aggregate> := None;
    var currRollupTime := LongMinValue;
    for i := 0 to |s|
      invariant curr.None? <==> i == 0
      invariant i == 0 ==> rolledUp == []
      invariant i > 0 ==> currRollupTime == Bucket(s[i - 1], bucket)
      invariant i > 0 ==> RollUpSpec(s[..i], bucket) == rolledUp + [curr.value]
    {
      ghost var prevOut, prevCurr := rolledUp, curr;
      var rollupTime := RollupTime(s[i].captureTime, width);
      if rollupTime != currRollupTime && curr.Some? {
        rolledUp := rolledUp + [curr.value];
        curr := Some(Timed(0, ZeroTotals));
      }
      if curr.None? {
        curr := Some(Timed(0, ZeroTotals));
      }
      currRollupTime := rollupTime;
      curr := Some(Timed(s[i].captureTime, Plus(curr.value.value, s[i].value)));
      if i > 0 {
        RollUpStep(s, i, bucket, prevOut, prevCurr.value);
      } else {
        assert s[..1] == [s[0]];
        RollUpSpecSingle(s[0], bucket);
      }
    }
    if curr.Some? {
      rolledUp := rolledUp + [curr.value];
    }
    assert s[..|s|] == s;
  }

  /** One step of rollUp's loop: the next input joins the current bucket or closes it. */
  lemma RollUpStep(s: seq<Aggregate>, i: nat, bucket: int -> int, out: seq<Aggregate>,
                   curr: Aggregate)
    requires 0 < i < |s| && RollUpSpec(s[..i], bucket) == out + [curr]
    ensures Bucket(s[i], bucket) != Bucket(s[i - 1], bucket) ==>
              RollUpSpec(s[..i + 1], bucket) ==
              (out + [curr]) + [Timed(s[i].captureTime, Plus(ZeroTotals, s[i].value))]
    ensures Bucket(s[i], bucket) == Bucket(s[i - 1], bucket) ==>
              RollUpSpec(s[..i + 1], bucket) ==
              out + [Timed(s[i].captureTime, Plus(curr.value, s[i].value))]
  {
    assert s[..i + 1] == s[..i] + [s[i]];
    RollUpSpecSnoc(s[..i], s[i], bucket);
    var prev := out + [curr];
    assert prev[..|prev| - 1] == out;
  }

  // ---------------------------------------------------------------------------------------
  // Properties of the fold

  /** Number of adjacent input pairs whose buckets differ. */
  function Boundaries(s: seq<Aggregate>, bucket: int -> int): nat
  {
    if |s| < 2 then 0
    else (if Bucket(s[0], bucket) != Bucket(s[1], bucket) then 1 else 0) + Boundaries(s[1..], bucket)
  }

  lemma {:induction false} BoundariesOfRun(s: seq<Aggregate>, bucket: int -> int)
    requires |s| > 0
    ensures var n := RunLength(s, bucket);
            Boundaries(s, bucket) == if n < |s| then 1 + Boundaries(s[n..], bucket) else 0
  {
    if |s| > 1 && Bucket(s[1], bucket) == Bucket(s[0], bucket) {
      BoundariesOfRun(s[1..], bucket);
      var n := RunLength(s, bucket);
      if n < |s| {
        assert s[1..][n - 1..] == s[n..];
      }
    }
  }

  /** One output per maximal run: the output length is one more than the number of bucket
      changes between adjacent inputs, and empty input gives empty output. */
  lemma {:induction false} RollUpLength(s: seq<Aggregate>, bucket: int -> int)
    ensures |RollUpSpec(s, bucket)| == if s == [] then 0 else 1 + Boundaries(s, bucket)
    decreases |s|
  {
    if s != [] {
      var n := RunLength(s, bucket);
      BoundariesOfRun(s, bucket);
      RollUpLength(s[n..], bucket);
    }
  }

  /** The fold neither loses nor invents anything: the output totals sum to the input totals. */
  lemma {:induction false} RollUpConservesTotals(s: seq<Aggregate>, bucket: int -> int)
    ensures SumTotals(RollUpSpec(s, bucket)) == SumTotals(s)
    decreases |s|
  {
    if s != [] {
      var n := RunLength(s, bucket);
      var m := MergeRun(s[..n]);
      var rest := RollUpSpec(s[n..], bucket);
      RollUpConservesTotals(s[n..], bucket);
      var head, tail := SumTotals(s[..n]), SumTotals(s[n..]);
      assert RollUpSpec(s, bucket) == [m] + rest;
      SumTotalsAppend([m], rest);
      SumTotalsSingle(m);
      assert SumTotals([m] + rest) == Plus(head, tail);
      assert s == s[..n] + s[n..];
      SumTotalsAppend(s[..n], s[n..]);
      assert SumTotals(s) == Plus(head, tail);
    }
  }

  /** Each output closes its run: its capture time is that of the run's last input, so its
      bucket is the bucket of every input of the run. */
  lemma {:induction false} MergeRunBucket(s: seq<Aggregate>, bucket: int -> int)
    requires |s| > 0
    ensures var n := RunLength(s, bucket);
            MergeRun(s[..n]).captureTime == s[n - 1].captureTime &&
            Bucket(MergeRun(s[..n]), bucket) == Bucket(s[0], bucket)
  {
    RunLengthMaximal(s, bucket);
  }

  /** Adjacent outputs have different buckets (no bucket is emitted twice in a row), and the
      first output has the first input's bucket. */
  lemma {:induction false} RollUpAdjacentBucketsDiffer(s: seq<Aggregate>, bucket: int -> int)
    ensures var r := RollUpSpec(s, bucket);
            (|r| > 0 ==> Bucket(r[0], bucket) == Bucket(s[0], bucket)) &&
            forall k :: 0 <= k < |r| - 1 ==> Bucket(r[k], bucket) != Bucket(r[k + 1], bucket)
    decreases |s|
  {
    if s != [] {
      var n := RunLength(s, bucket);
      MergeRunBucket(s, bucket);
      RunLengthMaximal(s, bucket);
      RollUpAdjacentBucketsDiffer(s[n..], bucket);
      var r := RollUpSpec(s, bucket);
      var rest := RollUpSpec(s[n..], bucket);
      assert r == [MergeRun(s[..n])] + rest;
      forall k | 0 <= k < |r| - 1
        ensures Bucket(r[k], bucket) != Bucket(r[k + 1], bucket)
      {
        if k > 0 {
          assert r[k] == rest[k - 1] && r[k + 1] == rest[k];
        } else {
          assert r[1] == rest[0];
        }
      }
    }
  }

  ghost predicate CaptureTimeOrdered(s: seq<Aggregate>)
  {
    forall i, j :: 0 <= i < j < |s| ==> s[i].captureTime <= s[j].captureTime
  }

  lemma OrderedSuffix(s: seq<Aggregate>, n: nat)
    requires CaptureTimeOrdered(s) && n <= |s|
    ensures CaptureTimeOrdered(s[n..])
  {
    var tail := s[n..];
    forall i, j | 0 <= i < j < |tail| ensures tail[i].captureTime <= tail[j].captureTime {
      assert tail[i] == s[n + i] && tail[j] == s[n + j];
    }
  }

  /** Outputs carry input capture times, so a lower bound on the inputs bounds the outputs. */
  lemma {:induction false} RollUpLowerBound(s: seq<Aggregate>, bucket: int -> int, low: int)
    requires forall i :: 0 <= i < |s| ==> low <= s[i].captureTime
    ensures forall k :: 0 <= k < |RollUpSpec(s, bucket)| ==>
              low <= RollUpSpec(s, bucket)[k].captureTime
    decreases |s|
  {
    if s != [] {
      var n := RunLength(s, bucket);
      RollUpLowerBound(s[n..], bucket, low);
      var r := RollUpSpec(s, bucket);
      assert r == [MergeRun(s[..n])] + RollUpSpec(s[n..], bucket);
      assert forall k :: 1 <= k < |r| ==> r[k] == RollUpSpec(s[n..], bucket)[k - 1];
    }
  }

  /** `first` lies strictly before every element of `rest`, in capture time and in bucket. */
  ghost predicate Precedes(first: Aggregate, rest: seq<Aggregate>, bucket: int -> int)
  {
    forall j :: 0 <= j < |rest| ==>
      first.captureTime < rest[j].captureTime && Bucket(first, bucket) < Bucket(rest[j], bucket)
  }

  /** For ordered input, the first output lies strictly before every later output. */
  lemma {:induction false} FirstRunBeforeRest(s: seq<Aggregate>, bucket: int -> int)
    requires MonotoneBuckets(bucket) && CaptureTimeOrdered(s) && |s| > 0
    ensures Precedes(MergeRun(s[..RunLength(s, bucket)]),
                     RollUpSpec(s[RunLength(s, bucket)..], bucket), bucket)
  {
    var n := RunLength(s, bucket);
    if n < |s| {
      var first := MergeRun(s[..n]);
      var rest := RollUpSpec(s[n..], bucket);
      MergeRunBucket(s, bucket);
      RunLengthMaximal(s, bucket);
      assert s[n - 1].captureTime < s[n].captureTime;
      assert bucket(s[n - 1].captureTime) <= bucket(s[n].captureTime);
      RollUpLowerBound(s[n..], bucket, s[n].captureTime);
      forall j | 0 <= j < |rest|
        ensures first.captureTime < rest[j].captureTime && Bucket(first, bucket) < Bucket(rest[j], bucket)
      {
        assert bucket(s[n].captureTime) <= bucket(rest[j].captureTime);
      }
    }
  }

  ghost predicate StrictlyIncreasing(r: seq<Aggregate>, bucket: int -> int)
  {
    forall i, j :: 0 <= i < j < |r| ==>
      r[i].captureTime < r[j].captureTime && Bucket(r[i], bucket) < Bucket(r[j], bucket)
  }

  /** For capture-time ordered input, the output capture times and buckets strictly increase. */
  lemma {:induction false} RollUpStrictlyIncreasing(s: seq<Aggregate>, bucket: int -> int)
    requires MonotoneBuckets(bucket) && CaptureTimeOrdered(s)
    ensures StrictlyIncreasing(RollUpSpec(s, bucket), bucket)
    decreases |s|
  {
    if s != [] {
      var n := RunLength(s, bucket);
      OrderedSuffix(s, n);
      RollUpStrictlyIncreasing(s[n..], bucket);
      FirstRunBeforeRest(s, bucket);
      PrependStrictlyIncreasing(MergeRun(s[..n]), RollUpSpec(s[n..], bucket), bucket);
    }
  }

  lemma PrependStrictlyIncreasing(first: Aggregate, rest: seq<Aggregate>, bucket: int -> int)
    requires StrictlyIncreasing(rest, bucket)
    requires Precedes(first, rest, bucket)
    ensures StrictlyIncreasing([first] + rest, bucket)
  {
    var r := [first] + rest;
    forall i, j | 0 <= i < j < |r|
      ensures r[i].captureTime < r[j].captureTime && Bucket(r[i], bucket) < Bucket(r[j], bucket)
    {
      assert r[j] == rest[j - 1];
      if i > 0 {
        assert r[i] == rest[i - 1];
      }
    }
  }

  /** The set of buckets that a sequence of aggregates touches. */
  ghost function BucketsOf(s: seq<Aggregate>, bucket: int -> int): set<int>
  {
    set i | 0 <= i < |s| :: Bucket(s[i], bucket)
  }

  /** The outputs have exactly the buckets of the inputs: no bucket is lost or invented. */
  lemma {:induction false} RollUpBuckets(s: seq<Aggregate>, bucket: int -> int)
    ensures BucketsOf(RollUpSpec(s, bucket), bucket) == BucketsOf(s, bucket)
    decreases |s|
  {
    if s != [] {
      var n := RunLength(s, bucket);
      var rest := RollUpSpec(s[n..], bucket);
      var first := MergeRun(s[..n]);
      assert RollUpSpec(s, bucket) == [first] + rest;
      RollUpBuckets(s[n..], bucket);
      MergeRunBucket(s, bucket);
      RunLengthMaximal(s, bucket);
      BucketsOfCons(first, rest, bucket);
      BucketsOfRun(s, n, bucket);
    }
  }

  lemma BucketsOfCons(first: Aggregate, rest: seq<Aggregate>, bucket: int -> int)
    ensures BucketsOf([first] + rest, bucket) == {Bucket(first, bucket)} + BucketsOf(rest, bucket)
  {
    var r := [first] + rest;
    forall b | b in BucketsOf(r, bucket) ensures b in {Bucket(first, bucket)} + BucketsOf(rest, bucket) {
      var k :| 0 <= k < |r| && b == Bucket(r[k], bucket);
      if k > 0 { assert r[k] == rest[k - 1]; }
    }
    forall b | b in BucketsOf(rest, bucket) ensures b in BucketsOf(r, bucket) {
      var k :| 0 <= k < |rest| && b == Bucket(rest[k], bucket);
      assert r[k + 1] == rest[k];
    }
    assert r[0] == first;
  }

  /** A leading run of one bucket adds just that bucket. */
  lemma BucketsOfRun(s: seq<Aggregate>, n: nat, bucket: int -> int)
    requires 0 < n <= |s|
    requires forall i :: 0 <= i < n ==> Bucket(s[i], bucket) == Bucket(s[0], bucket)
    ensures BucketsOf(s, bucket) == {Bucket(s[0], bucket)} + BucketsOf(s[n..], bucket)
  {
    var tail := s[n..];
    var b0 := Bucket(s[0], bucket);
    forall b | b in BucketsOf(s, bucket) ensures b in {b0} + BucketsOf(tail, bucket) {
      var i :| 0 <= i < |s| && b == Bucket(s[i], bucket);
      if i >= n { assert s[i] == tail[i - n]; }
    }
    forall b | b in BucketsOf(tail, bucket) ensures b in BucketsOf(s, bucket) {
      var i :| 0 <= i < |tail| && b == Bucket(tail[i], bucket);
      assert s[n + i] == tail[i];
    }
  }

  /** The inputs that fall in bucket `b`, in input order. */
  function InBucket(s: seq<Aggregate>, bucket: int -> int, b: int): seq<Aggregate>
  {
    if s == [] then []
    else (if Bucket(s[0], bucket) == b then [s[0]] else []) + InBucket(s[1..], bucket, b)
  }

  lemma {:induction false} InBucketAppend(a: seq<Aggregate>, c: seq<Aggregate>, bucket: int -> int, b: int)
    ensures InBucket(a + c, bucket, b) == InBucket(a, bucket, b) + InBucket(c, bucket, b)
  {
    if a != [] {
      assert (a + c)[1..] == a[1..] + c;
      InBucketAppend(a[1..], c, bucket, b);
    } else {
      assert a + c == c;
    }
  }

  lemma {:induction false} InBucketAll(s: seq<Aggregate>, bucket: int -> int, b: int)
    requires forall i :: 0 <= i < |s| ==> Bucket(s[i], bucket) == b
    ensures InBucket(s, bucket, b) == s
  {
    if s != [] {
      InBucketAll(s[1..], bucket, b);
      assert s == [s[0]] + s[1..];
    }
  }

  lemma {:induction false} InBucketNone(s: seq<Aggregate>, bucket: int -> int, b: int)
    requires forall i :: 0 <= i < |s| ==> Bucket(s[i], bucket) != b
    ensures InBucket(s, bucket, b) == []
  {
    if s != [] {
      InBucketNone(s[1..], bucket, b);
    }
  }

  /** `o` is the merge of every input in its bucket: it has the capture time of the last of
      them and the sum of their totals. */
  ghost predicate ClosesBucket(o: Aggregate, s: seq<Aggregate>, bucket: int -> int)
  {
    var members := InBucket(s, bucket, Bucket(o, bucket));
    |members| > 0 && o.captureTime == members[|members| - 1].captureTime &&
    o.value == SumTotals(members)
  }

  ghost predicate AllCloseBuckets(r: seq<Aggregate>, s: seq<Aggregate>, bucket: int -> int)
  {
    forall k :: 0 <= k < |r| ==> ClosesBucket(r[k], s, bucket)
  }

  /** For capture-time ordered input, the fold agrees with the bucket-wise reading of the
      rollup: each output is the merge of all inputs in its bucket (so no bucket is split). */
  lemma {:induction false} RollUpMergesWholeBuckets(s: seq<Aggregate>, bucket: int -> int)
    requires MonotoneBuckets(bucket) && CaptureTimeOrdered(s)
    ensures AllCloseBuckets(RollUpSpec(s, bucket), s, bucket)
    decreases |s|
  {
    if s != [] {
      var n := RunLength(s, bucket);
      var rest := RollUpSpec(s[n..], bucket);
      OrderedSuffix(s, n);
      RollUpMergesWholeBuckets(s[n..], bucket);
      FirstRunBeforeRest(s, bucket);
      MergeRunBucket(s, bucket);
      FirstRunClosesBucket(s, bucket);
      LaterRunsClose(s, bucket, rest);
      PrependCloses(MergeRun(s[..n]), rest, s, bucket);
    }
  }

  lemma LaterRunsClose(s: seq<Aggregate>, bucket: int -> int, rest: seq<Aggregate>)
    requires CaptureTimeOrdered(s) && |s| > 0
    requires AllCloseBuckets(rest, s[RunLength(s, bucket)..], bucket)
    requires forall k :: 0 <= k < |rest| ==> Bucket(s[0], bucket) < Bucket(rest[k], bucket)
    ensures AllCloseBuckets(rest, s, bucket)
  {
    forall k | 0 <= k < |rest| ensures ClosesBucket(rest[k], s, bucket) {
      LaterRunClosesBucket(s, bucket, rest[k]);
    }
  }

  lemma PrependCloses(first: Aggregate, rest: seq<Aggregate>, s: seq<Aggregate>, bucket: int -> int)
    requires ClosesBucket(first, s, bucket) && AllCloseBuckets(rest, s, bucket)
    ensures AllCloseBuckets([first] + rest, s, bucket)
  {
    var r := [first] + rest;
    forall k | 0 <= k < |r| ensures ClosesBucket(r[k], s, bucket) {
      if k > 0 {
        assert r[k] == rest[k - 1];
      }
    }
  }

  lemma {:induction false} FirstRunClosesBucket(s: seq<Aggregate>, bucket: int -> int)
    requires MonotoneBuckets(bucket) && CaptureTimeOrdered(s) && |s| > 0
    ensures ClosesBucket(MergeRun(s[..RunLength(s, bucket)]), s, bucket)
  {
    var n := RunLength(s, bucket);
    MergeRunBucket(s, bucket);
    RunLengthMaximal(s, bucket);
    TailBucketsAbove(s, bucket);
    InBucketSplit(s, n, bucket, Bucket(s[0], bucket));
    assert s[..n][n - 1] == s[n - 1];
  }

  /** When exactly a prefix lies in bucket `b`, the inputs in `b` are that prefix. */
  lemma InBucketSplit(s: seq<Aggregate>, n: nat, bucket: int -> int, b: int)
    requires n <= |s|
    requires forall i :: 0 <= i < n ==> Bucket(s[i], bucket) == b
    requires forall i :: n <= i < |s| ==> Bucket(s[i], bucket) != b
    ensures InBucket(s, bucket, b) == s[..n]
  {
    var head, tail := s[..n], s[n..];
    assert forall i :: 0 <= i < |head| ==> head[i] == s[i];
    assert forall i :: 0 <= i < |tail| ==> tail[i] == s[n + i];
    InBucketAll(head, bucket, b);
    InBucketNone(tail, bucket, b);
    assert s == head + tail;
    InBucketAppend(head, tail, bucket, b);
    assert head + [] == head;
  }

  lemma {:induction false} LaterRunClosesBucket(s: seq<Aggregate>, bucket: int -> int, o: Aggregate)
    requires CaptureTimeOrdered(s) && |s| > 0
    requires ClosesBucket(o, s[RunLength(s, bucket)..], bucket)
    requires Bucket(s[0], bucket) < Bucket(o, bucket)
    ensures ClosesBucket(o, s, bucket)
  {
    var n := RunLength(s, bucket);
    var b := Bucket(o, bucket);
    RunLengthMaximal(s, bucket);
    assert s == s[..n] + s[n..];
    InBucketAppend(s[..n], s[n..], bucket, b);
    assert forall i :: 0 <= i < |s[..n]| ==> Bucket(s[..n][i], bucket) == Bucket(s[0], bucket);
    InBucketNone(s[..n], bucket, b);
    assert InBucket(s, bucket, b) == [] + InBucket(s[n..], bucket, b);
    assert [] + InBucket(s[n..], bucket, b) == InBucket(s[n..], bucket, b);
  }

  /** For ordered input, every input after the first run lies in a later bucket. */
  lemma {:induction false} TailBucketsAbove(s: seq<Aggregate>, bucket: int -> int)
    requires MonotoneBuckets(bucket) && CaptureTimeOrdered(s) && |s| > 0
    ensures forall i :: RunLength(s, bucket) <= i < |s| ==> Bucket(s[0], bucket) < Bucket(s[i], bucket)
  {
    var n := RunLength(s, bucket);
    RunLengthMaximal(s, bucket);
    forall i | n <= i < |s| ensures Bucket(s[0], bucket) < Bucket(s[i], bucket) {
      assert s[n - 1].captureTime <= s[n].captureTime <= s[i].captureTime;
      assert bucket(s[n - 1].captureTime) <= bucket(s[n].captureTime);
      assert bucket(s[n].captureTime) <= bucket(s[i].captureTime);
    }
  }
}
