/** The Prometheus-style histogram (histogram.hpp) and its cumulative rendering
    (write_histogram in metrics.cpp). Values are seconds as exact reals. */
module Histograms {
  import opened Types

  const FRAME_INTERVAL_BUCKETS: seq<real> :=
    [0.005, 0.01, 0.02, 0.033, 0.05, 0.0667, 0.1, 0.15, 0.25, 0.5, 1.0, 2.0, 5.0]

  /** Per-bucket counts (the last bucket is the overflow), running sum and total. */
  datatype Snapshot = Snapshot(bucketCounts: seq<nat>, sum: real, count: nat)

  /** The first bucket whose bound is not below the value, else the overflow bucket. */
  function Bucket(bounds: seq<real>, v: real): (i: nat)
    ensures i <= |bounds|
    ensures i < |bounds| ==> v <= bounds[i]
    ensures forall j :: 0 <= j < i ==> bounds[j] < v
  {
    if bounds == [] || v <= bounds[0] then 0 else 1 + Bucket(bounds[1..], v)
  }

  function Record(bounds: seq<real>, h: Snapshot, v: real): (r: Snapshot)
    requires |h.bucketCounts| == |bounds| + 1
    ensures |r.bucketCounts| == |bounds| + 1
  {
    var b := Bucket(bounds, v);
    Snapshot(h.bucketCounts[b := h.bucketCounts[b] + 1], h.sum + v, h.count + 1)
  }

  /** The histogram after a sequence of observations. */
  function Recorded(bounds: seq<real>, observations: seq<real>): (r: Snapshot)
    ensures |r.bucketCounts| == |bounds| + 1
  {
    if observations == [] then Snapshot(seq(|bounds| + 1, _ => 0), 0.0, 0)
    else Record(bounds, Recorded(bounds, Init(observations)), Last(observations))
  }

  // ---- Reference: count the raw observations ---------------------------------

  /** How many observations are at most `limit`. */
  function AtMost(observations: seq<real>, limit: real): nat {
    if observations == [] then 0
    else AtMost(Init(observations), limit) + (if Last(observations) <= limit then 1 else 0)
  }

  function Sum(observations: seq<real>): real {
    if observations == [] then 0.0 else Sum(Init(observations)) + Last(observations)
  }

  ghost predicate Nondecreasing(bounds: seq<real>) {
    forall i, j :: 0 <= i < j < |bounds| ==> bounds[i] <= bounds[j]
  }

  /** The running total that the renderer prints after adding bucket `n - 1`. */
  function Cumulative(counts: seq<nat>, n: nat): nat
    requires n <= |counts|
  {
    if n == 0 then 0 else Cumulative(counts, n - 1) + counts[n - 1]
  }

  lemma {:induction false} CumulativeOfZeros(counts: seq<nat>, n: nat)
    requires n <= |counts| && forall i :: 0 <= i < |counts| ==> counts[i] == 0
    ensures Cumulative(counts, n) == 0
  {
    if n > 0 {
      CumulativeOfZeros(counts, n - 1);
    }
  }

  lemma {:induction false} CumulativeAfterIncrement(counts: seq<nat>, b: nat, n: nat)
    requires b < |counts| && n <= |counts|
    ensures Cumulative(counts[b := counts[b] + 1], n) == Cumulative(counts, n) + (if b < n then 1 else 0)
  {
    if n > 0 {
      CumulativeAfterIncrement(counts, b, n - 1);
    }
  }

  lemma {:induction false} BucketWithin(bounds: seq<real>, v: real, i: nat)
    requires Nondecreasing(bounds) && i < |bounds|
    ensures Bucket(bounds, v) <= i <==> v <= bounds[i]
  {
    var b := Bucket(bounds, v);
    assert b <= i ==> bounds[b] <= bounds[i];
  }

  /** The cumulative value rendered at bound `i` is the number of raw observations
      at most that bound; count and sum are those of the raw observations. */
  lemma {:induction false} RenderedIsRawCount(bounds: seq<real>, observations: seq<real>, i: nat)
    requires Nondecreasing(bounds) && i < |bounds|
    ensures Cumulative(Recorded(bounds, observations).bucketCounts, i + 1) == AtMost(observations, bounds[i])
    decreases |observations|
  {
    if observations == [] {
      CumulativeOfZeros(Recorded(bounds, []).bucketCounts, i + 1);
    } else {
      var before, v := Init(observations), Last(observations);
      RenderedIsRawCount(bounds, before, i);
      CumulativeAfterIncrement(Recorded(bounds, before).bucketCounts, Bucket(bounds, v), i + 1);
      BucketWithin(bounds, v, i);
    }
  }

  /** The "+Inf" value equals the count, whatever the bounds. */
  lemma {:induction false} InfinityIsCount(bounds: seq<real>, observations: seq<real>)
    ensures var h := Recorded(bounds, observations);
      && Cumulative(h.bucketCounts, |bounds| + 1) == h.count == |observations|
      && h.sum == Sum(observations)
    decreases |observations|
  {
    if observations == [] {
      CumulativeOfZeros(Recorded(bounds, []).bucketCounts, |bounds| + 1);
    } else {
      var before, v := Init(observations), Last(observations);
      InfinityIsCount(bounds, before);
      CumulativeAfterIncrement(Recorded(bounds, before).bucketCounts, Bucket(bounds, v), |bounds| + 1);
    }
  }

  /** Whatever is observed, the cumulative value at each bound counts the observations at
      most that bound. */
  ghost predicate CountsRawly(bounds: seq<real>) {
    forall obs: seq<real>, i: nat | i < |bounds| ::
      Cumulative(Recorded(bounds, obs).bucketCounts, i + 1) == AtMost(obs, bounds[i])
  }

  lemma {:induction false} OneObservation(bounds: seq<real>, v: real, n: nat)
    requires n <= |bounds| + 1
    ensures Cumulative(Recorded(bounds, [v]).bucketCounts, n) == if Bucket(bounds, v) < n then 1 else 0
  {
    var none := Recorded(bounds, []).bucketCounts;
    assert Init([v]) == [];
    CumulativeOfZeros(none, n);
    CumulativeAfterIncrement(none, Bucket(bounds, v), n);
  }

  lemma {:induction false} UnorderedBoundsMiscount(bounds: seq<real>, i: nat, j: nat)
    requires i < j < |bounds| && bounds[j] < bounds[i]
    ensures Cumulative(Recorded(bounds, [bounds[i]]).bucketCounts, j + 1) != AtMost([bounds[i]], bounds[j])
  {
    var obs := [bounds[i]];
    OneObservation(bounds, bounds[i], j + 1);
    assert Init(obs) == [] && AtMost([], bounds[j]) == 0;
  }

  /** Nondecreasing bounds are needed as well as enough: with any others some single
      observation is rendered under a bound it exceeds. */
  lemma {:induction false} RawCountNeedsOrderedBounds(bounds: seq<real>)
    ensures Nondecreasing(bounds) <==> CountsRawly(bounds)
  {
    if Nondecreasing(bounds) {
      forall obs: seq<real>, i: nat | i < |bounds|
        ensures Cumulative(Recorded(bounds, obs).bucketCounts, i + 1) == AtMost(obs, bounds[i])
      {
        RenderedIsRawCount(bounds, obs, i);
      }
      assert CountsRawly(bounds);
    } else {
      var i, j :| 0 <= i < j < |bounds| && bounds[j] < bounds[i];
      UnorderedBoundsMiscount(bounds, i, j);
    }
  }

  lemma {:induction false} FrameIntervalBucketsOrdered()
    ensures Nondecreasing(FRAME_INTERVAL_BUCKETS)
  {
    var b := FRAME_INTERVAL_BUCKETS;
    assert forall i :: 0 <= i < |b| - 1 ==> b[i] < b[i + 1];
    NeighboursSuffice(b);
  }

  lemma {:induction false} NeighboursSuffice(b: seq<real>)
    requires forall i :: 0 <= i < |b| - 1 ==> b[i] < b[i + 1]
    ensures Nondecreasing(b)
  {
    forall i, j | 0 <= i < j < |b|
      ensures b[i] <= b[j]
    {
      NeighboursReach(b, i, j);
    }
  }

  lemma {:induction false} NeighboursReach(b: seq<real>, i: nat, j: nat)
    requires forall i :: 0 <= i < |b| - 1 ==> b[i] < b[i + 1]
    requires i <= j < |b|
    ensures b[i] <= b[j]
    decreases j
  {
    if i < j {
      NeighboursReach(b, i, j - 1);
      assert b[j - 1] < b[(j - 1) + 1];
    }
  }

  // ---- The histogram object and the renderer ---------------------------------

  class Histogram {
    const bounds: seq<real>
    var counts: seq<nat>
    var sum: real
    var total: nat
    ghost var observations: seq<real>

    ghost predicate Valid()
      reads this
    {
      Snapshot(counts, sum, total) == Recorded(bounds, observations)
    }

    constructor (bounds: seq<real>)
      ensures Valid() && observations == [] && this.bounds == bounds
    {
      this.bounds := bounds;
      counts, sum, total := seq(|bounds| + 1, _ => 0), 0.0, 0;
      observations := [];
    }

    method Observe(value: real)
      requires Valid()
      modifies this
      ensures Valid() && observations == old(observations) + [value]
    {
      var index := |bounds|;
      var i := 0;
      while i < |bounds|
        invariant 0 <= i <= |bounds| && index == |bounds|
        invariant forall j :: 0 <= j < i ==> bounds[j] < value
      {
        if value <= bounds[i] {
          index := i;
          break;
        }
        i := i + 1;
      }
      assert index == Bucket(bounds, value);
      counts := counts[index := counts[index] + 1];
      sum := sum + value;
      total := total + 1;
      SnocParts(observations, value);
      observations := observations + [value];
    }

    method TakeSnapshot() returns (snap: Snapshot)
      requires Valid()
      ensures snap == Recorded(bounds, observations)
    {
      snap := Snapshot(counts, sum, total);
    }
  }

  /** One rendered line of a histogram: a bucket (None is "+Inf"), the sum or the count. */
  datatype Sample = BucketLine(le: Option<real>, value: nat) | SumLine(total: real) | CountLine(n: nat)

  /** The bucket lines of the prefix sums. */
  ghost predicate RendersSums(bounds: seq<real>, counts: seq<nat>, out: seq<Sample>) {
    && |out| <= |bounds| <= |counts|
    && forall k :: 0 <= k < |out| ==> out[k] == BucketLine(Some(bounds[k]), Cumulative(counts, k + 1))
  }

  lemma {:induction false} SumsCountRawly(bounds: seq<real>, obs: seq<real>, out: seq<Sample>)
    requires RendersSums(bounds, Recorded(bounds, obs).bucketCounts, out) && Nondecreasing(bounds)
    ensures forall i :: 0 <= i < |out| ==> out[i].value == AtMost(obs, bounds[i])
  {
    forall k | 0 <= k < |out|
      ensures out[k].value == AtMost(obs, bounds[k])
    {
      RenderedIsRawCount(bounds, obs, k);
    }
  }

  /** The renderer, on the histogram of the raw observations `obs`. The bucket lines
      never decrease and the "+Inf" line equals the count line; under nondecreasing
      bounds every bucket line carries the number of observations at most its bound. */
  method WriteHistogram(bounds: seq<real>, snap: Snapshot, ghost obs: seq<real>) returns (out: seq<Sample>)
    requires snap == Recorded(bounds, obs)
    ensures |out| == |bounds| + 3
    ensures forall i :: 0 <= i < |bounds| ==> out[i].BucketLine? && out[i].le == Some(bounds[i])
    ensures Nondecreasing(bounds) ==> forall i :: 0 <= i < |bounds| ==> out[i].value == AtMost(obs, bounds[i])
    ensures out[|bounds|] == BucketLine(None, |obs|)
    ensures out[|bounds| + 1..] == [SumLine(Sum(obs)), CountLine(|obs|)]
    ensures forall i :: 0 < i <= |bounds| ==> out[i - 1].value <= out[i].value
  {
    ghost var counts := snap.bucketCounts;
    var cumulative, lines, i := 0, [], 0;
    while i < |bounds|
      invariant 0 <= i <= |bounds| && |lines| == i
      invariant cumulative == Cumulative(counts, i)
      invariant RendersSums(bounds, counts, lines)
    {
      cumulative := cumulative + snap.bucketCounts[i];
      lines := lines + [BucketLine(Some(bounds[i]), cumulative)];
      i := i + 1;
    }
    InfinityIsCount(bounds, obs);
    if Nondecreasing(bounds) {
      SumsCountRawly(bounds, obs, lines);
    }
    cumulative := cumulative + snap.bucketCounts[|snap.bucketCounts| - 1];
    out := lines + [BucketLine(None, cumulative), SumLine(snap.sum), CountLine(snap.count)];
  }
}
