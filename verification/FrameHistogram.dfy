/** Frame times counted in buckets (CountFrame, Code/vanilla_harness/VanillaHarness.cpp) and percentiles read back from
    two counts (bucket_range, histogram_percentiles, scripts/coop_harness/profiling.py), in whole nanoseconds. */
module FrameHistogram {
  import opened Basics

  const MS := 1_000_000
  const SECOND := 1_000_000_000
  const STALL := 100 * MS
  const BUCKETS := 1000 + 290 + 1
  const LONGEST_TOLD := 30 * SECOND

  // ----- Counted -----

  /** A frame's bucket: one per ms below a second, per 100 ms below 30, and the rest. */
  function Bucket(ns: nat): (bucket: nat)
    ensures bucket < BUCKETS
  {
    var bucket := if ns < SECOND then ns / MS else 1000 + (ns - SECOND) / (100 * MS);
    if bucket < BUCKETS - 1 then bucket else BUCKETS - 1
  }

  /** How many of the frames are in a bucket. */
  function Count(frames: seq<nat>, bucket: nat): nat {
    if frames == [] then 0
    else Count(frames[..|frames| - 1], bucket) + if Bucket(frames[|frames| - 1]) == bucket then 1 else 0
  }

  function Histogram(frames: seq<nat>): (r: seq<nat>)
    ensures |r| == BUCKETS && forall i :: 0 <= i < BUCKETS ==> r[i] == Count(frames, i)
  {
    seq(BUCKETS, i requires 0 <= i < BUCKETS => Count(frames, i))
  }

  function Stalls(frames: seq<nat>): nat {
    if frames == [] then 0
    else Stalls(frames[..|frames| - 1]) + if frames[|frames| - 1] > STALL then 1 else 0
  }

  predicate IsLongest(frames: seq<nat>, longest: nat) {
    (forall f :: f in frames ==> f <= longest) && (if frames == [] then longest == 0 else longest in frames)
  }

  class FrameCounter {
    /** When the last frame was, in ns; 0 before the first. */
    var lastFrame: nat
    var frames: nat
    var stalls: nat
    var longest: nat
    const histogram: array<nat>

    /** Every frame's time. */
    ghost var times: seq<nat>

    ghost predicate Valid()
      reads this, histogram
    {
      && frames == |times| && stalls == Stalls(times) && IsLongest(times, longest)
      && histogram[..] == Histogram(times)
    }

    constructor ()
      ensures Valid() && fresh(histogram) && times == [] && lastFrame == 0
    {
      histogram := new nat[BUCKETS](_ => 0);
      lastFrame, frames, stalls, longest, times := 0, 0, 0, 0, [];
      new;
      assert histogram[..] == Histogram([]);
    }

    method CountFrame(now: nat)
      requires Valid() && lastFrame <= now
      modifies this, histogram
      ensures Valid() && lastFrame == now
      ensures times == if old(lastFrame) != 0 then old(times) + [now - old(lastFrame)] else old(times)
    {
      if lastFrame != 0 {
        var ns := now - lastFrame;
        ghost var before := times;
        times := times + [ns];
        assert times[..|times| - 1] == before;
        frames := frames + 1;
        if ns > STALL { stalls := stalls + 1; }
        longest := if ns > longest then ns else longest;
        var bucket := Bucket(ns);
        assert histogram.Length == BUCKETS by { assert |histogram[..]| == BUCKETS; }
        forall i | 0 <= i < BUCKETS ensures histogram[i] == Count(before, i) {
          assert histogram[..][i] == Count(before, i);
        }
        histogram[bucket] := histogram[bucket] + 1;
        assert histogram[..] == Histogram(times);
      }
      lastFrame := now;
    }
  }

  // ----- Read back -----

  /** A bucket's lowest time, and its width; the last one has none. */
  function Low(bucket: nat): nat {
    if bucket < 1000 then bucket * MS
    else if bucket < BUCKETS - 1 then SECOND + (bucket - 1000) * (100 * MS)
    else LONGEST_TOLD
  }

  function Width(bucket: nat): Option<nat> {
    if bucket < 1000 then Some(MS) else if bucket < BUCKETS - 1 then Some(100 * MS) else None
  }

  /** What is told of a bucket: its middle, or the last one's floor. */
  function Middle(bucket: nat): nat {
    match Width(bucket)
    case Some(width) => Low(bucket) + width / 2
    case None => Low(bucket)
  }

  /** What is told of the longest frame's bucket. */
  function Top(bucket: nat): nat {
    match Width(bucket)
    case Some(width) => Low(bucket) + width
    case None => Low(bucket)
  }

  /** A window's counts: the later ones less the earlier, where there are any. */
  function Window(before: seq<int>, after: seq<int>): (r: seq<int>)
    ensures |r| == |after| && forall i :: 0 <= i < |r| ==> r[i] == after[i] - (if i < |before| then before[i] else 0)
  {
    seq(|after|, i requires 0 <= i < |after| => after[i] - (if i < |before| then before[i] else 0))
  }

  function Sum(counts: seq<int>, n: nat): int
    requires n <= |counts|
  {
    if n == 0 then 0 else Sum(counts, n - 1) + counts[n - 1]
  }

  /** The first bucket, from i on, up to which so many are counted; the last one if none. */
  function Pick(counts: seq<int>, enough: real, i: nat): (bucket: nat)
    requires i < |counts|
    ensures bucket < |counts|
    decreases |counts| - i
  {
    if Sum(counts, i + 1) as real >= enough || i + 1 == |counts| then i else Pick(counts, enough, i + 1)
  }

  /** The last bucket, below n, with a count. */
  function Highest(counts: seq<int>, n: nat): Option<nat>
    requires n <= |counts|
  {
    if n == 0 then None else if counts[n - 1] != 0 then Some(n - 1) else Highest(counts, n - 1)
  }

  datatype Percentiles = Percentiles(p50: nat, p95: nat, p99: nat, max: nat)

  function Told(counts: seq<int>): Option<Percentiles> {
    var total := Sum(counts, |counts|);
    if total == 0 then None
    else
      SomeCounted(counts, |counts|);
      Some(Percentiles(Middle(Pick(counts, 0.50 * total as real, 0)), Middle(Pick(counts, 0.95 * total as real, 0)),
                       Middle(Pick(counts, 0.99 * total as real, 0)), Top(Highest(counts, |counts|).value)))
  }

  lemma {:induction false} SomeCounted(counts: seq<int>, n: nat)
    requires n <= |counts| && Sum(counts, n) != 0
    ensures Highest(counts, n).Some?
  {
    if counts[n - 1] == 0 { SomeCounted(counts, n - 1); }
  }

  method Percentile(counts: seq<int>, total: int, fraction: real) returns (value: nat)
    requires |counts| > 0
    ensures value == Middle(Pick(counts, fraction * total as real, 0))
  {
    var seen := 0;
    for index := 0 to |counts|
      invariant seen == Sum(counts, index)
      invariant index < |counts| ==>
          Pick(counts, fraction * total as real, 0) == Pick(counts, fraction * total as real, index)
      invariant index == |counts| ==> Pick(counts, fraction * total as real, 0) == |counts| - 1
    {
      seen := seen + counts[index];
      if seen as real >= fraction * total as real { return Middle(index); }
    }
    return Middle(|counts| - 1);
  }

  method HistogramPercentiles(before: seq<nat>, after: seq<nat>) returns (told: Option<Percentiles>)
    ensures told == Told(Window(before, after))
  {
    var counts := Window(before, after);
    var total := 0;
    for i := 0 to |counts|
      invariant total == Sum(counts, i)
    {
      total := total + counts[i];
    }
    if total == 0 { return None; }
    SomeCounted(counts, |counts|);
    var p50 := Percentile(counts, total, 0.50);
    var p95 := Percentile(counts, total, 0.95);
    var p99 := Percentile(counts, total, 0.99);
    var highest := |counts| - 1;
    while counts[highest] == 0
      invariant 0 <= highest < |counts|
      invariant Highest(counts, |counts|) == Highest(counts, highest + 1)
      decreases highest
    {
      assert Highest(counts, highest + 1) == Highest(counts, highest);
      highest := highest - 1;
    }
    return Some(Percentiles(p50, p95, p99, Top(highest)));
  }
}
