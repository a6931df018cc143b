/** What a histogram tells of a window's frames is right, to within a bucket. */
module FrameHistogramProofs {
  import opened Basics
  import opened FrameHistogram

  // ----- Buckets -----

  /** A frame is in its bucket: at least its lowest time, and less than its width above. */
  lemma InBucket(ns: nat)
    ensures Low(Bucket(ns)) <= ns
    ensures Width(Bucket(ns)).Some? ==> ns < Low(Bucket(ns)) + Width(Bucket(ns)).value
    ensures Width(Bucket(ns)).None? <==> ns >= LONGEST_TOLD
  {
  }

  lemma BucketsInOrder(a: nat, b: nat)
    requires a <= b
    ensures Bucket(a) <= Bucket(b)
  {
  }

  // ----- Counts -----

  lemma {:induction false} CountConcat(a: seq<nat>, b: seq<nat>, bucket: nat)
    ensures Count(a + b, bucket) == Count(a, bucket) + Count(b, bucket)
  {
    hide Bucket;
    if b == [] {
      assert a + b == a;
    } else {
      CountConcat(a, b[..|b| - 1], bucket);
      assert (a + b)[..|a + b| - 1] == a + b[..|b| - 1];
    }
  }

  /** The window between two counts of one game counts the frames in between. */
  lemma WindowCounts(earlier: seq<nat>, frames: seq<nat>)
    ensures Window(Histogram(earlier), Histogram(earlier + frames)) == Histogram(frames)
  {
    hide Bucket;
    forall i | 0 <= i < BUCKETS
      ensures Window(Histogram(earlier), Histogram(earlier + frames))[i] == Histogram(frames)[i]
    {
      CountConcat(earlier, frames, i);
    }
  }

  /** How many frames are in the first n buckets. */
  function CountBelow(frames: seq<nat>, n: nat): nat {
    if frames == [] then 0
    else CountBelow(frames[..|frames| - 1], n) + if Bucket(frames[|frames| - 1]) < n then 1 else 0
  }

  lemma {:induction false} BelowNext(frames: seq<nat>, n: nat)
    ensures CountBelow(frames, 0) == 0 && CountBelow(frames, n + 1) == CountBelow(frames, n) + Count(frames, n)
  {
    hide Bucket;
    if frames != [] { BelowNext(frames[..|frames| - 1], n); }
  }

  lemma {:induction false} SumIsBelow(frames: seq<nat>, n: nat)
    requires n <= BUCKETS
    ensures Sum(Histogram(frames), n) == CountBelow(frames, n)
  {
    hide Bucket;
    BelowNext(frames, 0);
    if n > 0 {
      SumIsBelow(frames, n - 1);
      BelowNext(frames, n - 1);
    }
  }

  lemma {:induction false} AllBelow(frames: seq<nat>)
    ensures CountBelow(frames, BUCKETS) == |frames|
  {
    hide Bucket;
    if frames != [] { AllBelow(frames[..|frames| - 1]); }
  }

  /** The stalls counted are the frames longer than 100 ms. */
  lemma {:induction false} StallsAre(frames: seq<nat>)
    ensures Stalls(frames) == |set i | 0 <= i < |frames| && frames[i] > 100_000_000|
  {
    var long := set i | 0 <= i < |frames| && frames[i] > 100_000_000;
    if frames == [] {
      assert long == {};
    } else {
      var n := |frames| - 1;
      var init := frames[..n];
      StallsAre(init);
      var before := set i | 0 <= i < |init| && init[i] > 100_000_000;
      assert long == before + (if frames[n] > 100_000_000 then {n} else {}) && n !in before;
    }
  }

  // ----- Sorted -----

  ghost predicate Sorted(s: seq<nat>) {
    forall i, j {:trigger s[i], s[j]} :: 0 <= i <= j < |s| ==> s[i] <= s[j]
  }

  ghost predicate IsSorted(frames: seq<nat>, s: seq<nat>) {
    Sorted(s) && multiset(s) == multiset(frames)
  }

  lemma {:induction false} BelowConcat(a: seq<nat>, b: seq<nat>, n: nat)
    ensures CountBelow(a + b, n) == CountBelow(a, n) + CountBelow(b, n)
  {
    hide Bucket;
    if b == [] {
      assert a + b == a;
    } else {
      BelowConcat(a, b[..|b| - 1], n);
      assert (a + b)[..|a + b| - 1] == a + b[..|b| - 1];
    }
  }

  /** A count does not depend on the order. */
  lemma {:induction false} BelowPermuted(a: seq<nat>, b: seq<nat>, n: nat)
    requires multiset(a) == multiset(b)
    ensures CountBelow(a, n) == CountBelow(b, n)
    decreases |a|
  {
    hide Bucket;
    if a == [] {
      assert |multiset(b)| == 0;
    } else {
      var last := a[|a| - 1];
      assert last in multiset(b);
      var k :| 0 <= k < |b| && b[k] == last;
      RemoveLast(a);
      RemoveAt(b, k);
      BelowPermuted(a[..|a| - 1], b[..k] + b[k + 1..], n);
      BelowWithout(b, k, n);
    }
  }

  lemma RemoveLast(a: seq<nat>)
    requires a != []
    ensures multiset(a[..|a| - 1]) == multiset(a) - multiset{a[|a| - 1]}
  {
    assert a == a[..|a| - 1] + [a[|a| - 1]];
  }

  lemma BelowWithout(b: seq<nat>, k: nat, n: nat)
    requires k < |b|
    ensures CountBelow(b, n) == CountBelow(b[..k] + b[k + 1..], n) + if Bucket(b[k]) < n then 1 else 0
  {
    hide Bucket;
    var upTo := b[..k + 1];
    assert b == upTo + b[k + 1..] && upTo[..k] == b[..k];
    BelowConcat(upTo, b[k + 1..], n);
    BelowConcat(b[..k], b[k + 1..], n);
  }

  /** Of sorted frames, those in the first n buckets are the first ones. */
  lemma {:induction false} BelowSorted(s: seq<nat>, n: nat, k: nat)
    requires Sorted(s) && k < |s|
    ensures Bucket(s[k]) < n ==> CountBelow(s, n) >= k + 1
    ensures Bucket(s[k]) >= n ==> CountBelow(s, n) <= k
    decreases |s|
  {
    var last := |s| - 1;
    var init := s[..last];
    assert forall i {:trigger init[i]} :: 0 <= i < last ==> init[i] == s[i];
    if k < last {
      BelowSorted(init, n, k);
      BucketsInOrder(s[k], s[last]);
    } else if last > 0 {
      BelowSorted(init, n, last - 1);
      BucketsInOrder(s[last - 1], s[last]);
      BelowAtMost(init, n);
    }
  }

  lemma {:induction false} BelowAtMost(s: seq<nat>, n: nat)
    ensures CountBelow(s, n) <= |s|
  {
    hide Bucket;
    if s != [] { BelowAtMost(s[..|s| - 1], n); }
  }

  // ----- Percentiles -----

  /** The nearest rank of a fraction: the first of the sorted frames up to which that fraction of them is. */
  ghost predicate IsRank(count: nat, fraction: real, rank: nat) {
    1 <= rank <= count && rank as real >= fraction * count as real > (rank - 1) as real
  }

  lemma {:induction false} PickIs(counts: seq<int>, enough: real, i: nat, bucket: nat)
    requires i <= bucket < |counts| && Sum(counts, bucket + 1) as real >= enough
    requires forall j {:trigger Sum(counts, j)} :: 0 < j <= bucket ==> (Sum(counts, j) as real) < enough
    ensures Pick(counts, enough, i) == bucket
    decreases bucket - i
  {
    if i < bucket {
      PickIs(counts, enough, i + 1, bucket);
      assert (Sum(counts, i + 1) as real) < enough;
    }
  }

  /** The bucket picked for a fraction is that of the frame at its nearest rank. */
  lemma PickIsRank(frames: seq<nat>, s: seq<nat>, fraction: real, rank: nat)
    requires IsSorted(frames, s) && IsRank(|frames|, fraction, rank)
    ensures |s| == |frames| && Pick(Histogram(frames), fraction * |frames| as real, 0) == Bucket(s[rank - 1])
  {
    hide Bucket, Histogram;
    SameLength(frames, s);
    var bucket, counts := Bucket(s[rank - 1]), Histogram(frames);
    forall n: nat {:trigger Sum(counts, n)} | n <= BUCKETS
      ensures bucket < n ==> Sum(counts, n) >= rank
      ensures bucket >= n ==> Sum(counts, n) <= rank - 1
    {
      SumIsBelow(frames, n);
      BelowPermuted(frames, s, n);
      BelowSorted(s, n, rank - 1);
    }
    PickIs(counts, fraction * |frames| as real, 0, bucket);
  }

  lemma SameLength(frames: seq<nat>, s: seq<nat>)
    requires multiset(s) == multiset(frames)
    ensures |s| == |frames|
  {
    assert |multiset(s)| == |s| && |multiset(frames)| == |frames|;
  }

  /** What is told of a frame below 30 s is within half its bucket; of a longer one, 30 s. */
  ghost predicate Near(told: nat, ns: nat) {
    if ns < LONGEST_TOLD then
      var half := if ns < SECOND then MS / 2 else 50 * MS;
      ns - half < told <= ns + half
    else told == LONGEST_TOLD
  }

  lemma MiddleIsNear(ns: nat)
    ensures Near(Middle(Bucket(ns)), ns)
  {
    InBucket(ns);
  }

  lemma {:induction false} HighestIs(counts: seq<int>, bucket: nat, n: nat)
    requires bucket < n <= |counts| && counts[bucket] != 0
    requires forall i {:trigger counts[i]} :: bucket < i < n ==> counts[i] == 0
    ensures Highest(counts, n) == Some(bucket)
  {
    if bucket + 1 < n { HighestIs(counts, bucket, n - 1); }
  }

  lemma {:induction false} CountedIff(frames: seq<nat>, bucket: nat)
    ensures Count(frames, bucket) > 0 <==> exists f :: f in frames && Bucket(f) == bucket
  {
    hide Bucket;
    if frames != [] {
      var init, last := frames[..|frames| - 1], frames[|frames| - 1];
      CountedIff(init, bucket);
      assert frames == init + [last];
      if f :| f in frames && Bucket(f) == bucket {
        assert f in init || f == last;
      }
    }
  }

  /** The highest bucket counted is the longest frame's. */
  lemma HighestIsLongest(frames: seq<nat>, longest: nat)
    requires frames != [] && IsLongest(frames, longest)
    ensures Highest(Histogram(frames), BUCKETS) == Some(Bucket(longest))
  {
    hide Bucket;
    var counts := Histogram(frames);
    CountedIff(frames, Bucket(longest));
    forall i {:trigger counts[i]} | Bucket(longest) < i < BUCKETS ensures counts[i] == 0 {
      CountedIff(frames, i);
      forall f | f in frames ensures Bucket(f) != i { BucketsInOrder(f, longest); }
    }
    HighestIs(counts, Bucket(longest), BUCKETS);
  }

  /** Whatever was counted before the window and in it: with no frame in it nothing is told; else the percentiles are
      those of the sorted frame times by nearest rank, to within half a bucket below 30 s, and the maximum is the top
      of the longest frame's bucket. */
  lemma ToldIsRight(earlier: seq<nat>, frames: seq<nat>, s: seq<nat>, longest: nat, rank50: nat, rank95: nat,
      rank99: nat)
    requires IsSorted(frames, s) && IsLongest(frames, longest)
    requires frames != [] ==>
        IsRank(|frames|, 0.50, rank50) && IsRank(|frames|, 0.95, rank95) && IsRank(|frames|, 0.99, rank99)
    ensures var told := Told(Window(Histogram(earlier), Histogram(earlier + frames)));
            && |s| == |frames|
            && (told.None? <==> frames == [])
            && (frames != [] ==>
                  && Near(told.value.p50, s[rank50 - 1]) && Near(told.value.p95, s[rank95 - 1])
                  && Near(told.value.p99, s[rank99 - 1]) && told.value.max == Top(Bucket(longest)))
  {
    hide Bucket, Histogram, Middle, Top, Near, IsRank, IsSorted, IsLongest;
    var counts := Histogram(frames);
    WindowCounts(earlier, frames);
    SumIsBelow(frames, BUCKETS);
    AllBelow(frames);
    SortedLength(frames, s);
    if frames != [] {
      RankInRange(|frames|, 0.50, rank50);
      RankInRange(|frames|, 0.95, rank95);
      RankInRange(|frames|, 0.99, rank99);
      PickIsRank(frames, s, 0.50, rank50);
      PickIsRank(frames, s, 0.95, rank95);
      PickIsRank(frames, s, 0.99, rank99);
      MiddleIsNear(s[rank50 - 1]);
      MiddleIsNear(s[rank95 - 1]);
      MiddleIsNear(s[rank99 - 1]);
      HighestIsLongest(frames, longest);
    }
  }

  lemma SortedLength(frames: seq<nat>, s: seq<nat>)
    requires IsSorted(frames, s)
    ensures |s| == |frames|
  {
    SameLength(frames, s);
  }

  lemma RankInRange(count: nat, fraction: real, rank: nat)
    requires IsRank(count, fraction, rank)
    ensures 1 <= rank <= count
  {
  }

  /** The top of a bucket is above its frames, by its width at most. */
  lemma TopIsNear(ns: nat)
    ensures ns < LONGEST_TOLD ==> ns < Top(Bucket(ns)) <= ns + (if ns < SECOND then MS else 100 * MS)
    ensures ns >= LONGEST_TOLD ==> Top(Bucket(ns)) == LONGEST_TOLD
  {
    InBucket(ns);
  }
}
