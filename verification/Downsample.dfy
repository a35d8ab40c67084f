/** Thinning out a series of metrics for display (agent/main.go). Floating point
    numbers are taken as exact. */
module Downsample {
  import opened Common

  datatype Snapshot = Snapshot(timestamp: int, pageCount: int, rest: string)

  // ----- cutting the middle of the series into buckets -----

  function BucketSize(n: int, target: int): real
    requires target >= 3
  {
    (n - 2) as real / (target - 2) as real
  }

  /** Bucket i holds the indices from Bound(i) up to Bound(i + 1). */
  function Bound(n: int, target: int, i: int): int
    requires target >= 3
  {
    (i as real * BucketSize(n, target)).Floor + 1
  }

  /** The i-th of target - 2 equal parts of n - 2 begins in the place before Bound. */
  lemma BoundIsFloor(n: int, target: int, i: nat)
    requires n > target >= 3
    ensures (Bound(n, target, i) - 1) * (target - 2) <= i * (n - 2) < Bound(n, target, i) * (target - 2)
  {
    hide Bound, BucketSize;
    BucketsFill(n, target);
    Scaled(i, n - 2, target - 2, BucketSize(n, target));
    FloorScaled(i as real * BucketSize(n, target), target - 2, i * (n - 2));
    BoundIs(n, target, i);
  }

  lemma BucketsFill(n: int, target: int)
    requires n > target >= 3
    ensures BucketSize(n, target) * (target - 2) as real == (n - 2) as real
  {
    SizeIsLarge((n - 2) as real, (target - 2) as real);
  }

  lemma Scaled(i: int, a: int, w: int, size: real)
    requires size * w as real == a as real
    ensures i as real * size * w as real == (i * a) as real
  {
    hide Times;
    TimesIs(size, w as real);
    TimesOfInts(i, a);
    TimesInThree(i as real, size, w as real);
  }

  lemma TimesInThree(x: real, y: real, z: real)
    ensures x * y * z == Times(x, Times(y, z))
  {
  }

  lemma BoundIs(n: int, target: int, i: int)
    requires target >= 3
    ensures Bound(n, target, i) == (i as real * BucketSize(n, target)).Floor + 1
  {
  }

  lemma BoundNext(n: int, target: int, i: int)
    requires n > target >= 3
    ensures Bound(n, target, i) < Bound(n, target, i + 1)
  {
    var size := BucketSize(n, target);
    SizeIsLarge((n - 2) as real, (target - 2) as real);
    assert (i + 1) as real * size == i as real * size + size;
    FloorGrows(i as real * size, size);
  }

  lemma SizeIsLarge(a: real, b: real)
    requires a > b > 0.0
    ensures a / b > 1.0 && b * (a / b) == a
  {
  }

  lemma FloorGrows(x: real, step: real)
    requires step > 1.0
    ensures (x + step).Floor > x.Floor
  {
  }

  lemma BoundEnds(n: int, target: int)
    requires n > target >= 3
    ensures Bound(n, target, 0) == 1 && Bound(n, target, target - 2) == n - 1
  {
    SizeIsLarge((n - 2) as real, (target - 2) as real);
  }

  lemma {:induction false} BoundsGrow(n: int, target: int, i: int, j: int)
    requires n > target >= 3 && i <= j
    ensures Bound(n, target, i) + (j - i) <= Bound(n, target, j)
    decreases j - i
  {
    if i < j {
      BoundsGrow(n, target, i, j - 1);
      BoundNext(n, target, j - 1);
    }
  }

  lemma BoundsInRange(n: int, target: int, i: int)
    requires n > target >= 3 && 0 <= i < target - 2
    ensures 1 <= Bound(n, target, i) < Bound(n, target, i + 1) <= n - 1
  {
    BoundEnds(n, target);
    BoundNext(n, target, i);
    BoundsGrow(n, target, 0, i);
    BoundsGrow(n, target, i + 1, target - 2);
  }

  predicate InBucket(n: int, target: int, i: int, k: int)
    requires target >= 3
  {
    Bound(n, target, i) <= k < Bound(n, target, i + 1)
  }

  /** One of the first m buckets holds index k. */
  ghost predicate InOneOf(n: int, target: int, m: int, k: int)
    requires target >= 3
  {
    exists i :: 0 <= i < m && InBucket(n, target, i, k)
  }

  ghost predicate InSomeBucket(n: int, target: int, k: int)
    requires target >= 3
  {
    InOneOf(n, target, target - 2, k)
  }

  lemma {:induction false} SomeBucket(n: int, target: int, m: nat, k: int)
    requires n > target >= 3 && Bound(n, target, 0) <= k < Bound(n, target, m)
    ensures InOneOf(n, target, m, k)
  {
    hide Bound;
    if k < Bound(n, target, m - 1) {
      SomeBucket(n, target, m - 1, k);
    } else {
      assert InBucket(n, target, m - 1, k);
    }
  }

  /** Every index but the first and the last lies in exactly one bucket, and no
      bucket is empty. */
  lemma BucketsPartition(n: int, target: int)
    requires n > target >= 3
    ensures forall i | 0 <= i < target - 2 :: InBucket(n, target, i, Bound(n, target, i))
    ensures forall k | 1 <= k < n - 1 :: InSomeBucket(n, target, k)
    ensures forall i, j, k | 0 <= i < target - 2 && 0 <= j < target - 2 && InBucket(n, target, i, k) && InBucket(n, target, j, k) ::
              i == j && 1 <= k < n - 1
  {
    hide Bound;
    BoundEnds(n, target);
    forall i | 0 <= i < target - 2 ensures InBucket(n, target, i, Bound(n, target, i)) {
      BoundNext(n, target, i);
    }
    forall k | 1 <= k < n - 1 ensures InSomeBucket(n, target, k) {
      SomeBucket(n, target, target - 2, k);
    }
    forall i, j, k | 0 <= i < target - 2 && 0 <= j < target - 2 && InBucket(n, target, i, k) && InBucket(n, target, j, k)
      ensures i == j && 1 <= k < n - 1
    {
      BoundsInRange(n, target, i);
      if i < j {
        BoundsGrow(n, target, i + 1, j);
      } else if j < i {
        BoundsGrow(n, target, j + 1, i);
      }
    }
  }

  // ----- the point of a bucket that stands out -----

  function Pages(data: seq<Snapshot>, k: nat): real
    requires k < |data|
  {
    data[k].pageCount as real
  }

  function Abs(x: real): real {
    if x < 0.0 then -x else x
  }

  /** The line from the point before the bucket to the point after it. */
  function Expected(prev: real, next: real, start: int, end: int, j: int): real
    requires start < end
  {
    var t := (j - start + 1) as real / (end - start + 1) as real;
    prev + t * (next - prev)
  }

  /** How far point j is off the line between the neighbours of the bucket. */
  function Deviation(data: seq<Snapshot>, start: int, end: int, j: int): real
    requires 1 <= start <= j < end < |data|
  {
    Abs(Expected(Pages(data, start - 1), Pages(data, end), start, end, j) - Pages(data, j))
  }

  /** The best of the points from `start` up to `upTo`. */
  function Best(data: seq<Snapshot>, start: int, end: int, upTo: int): (best: int)
    requires 1 <= start < upTo <= end < |data|
    ensures start <= best < upTo
    decreases upTo - start
  {
    if upTo == start + 1 then start
    else
      var best := Best(data, start, end, upTo - 1);
      if Deviation(data, start, end, upTo - 1) > Deviation(data, start, end, best) then upTo - 1 else best
  }

  /** The best point deviates most, and is the first that does. */
  lemma {:induction false} BestDeviatesMost(data: seq<Snapshot>, start: int, end: int, upTo: int, j: int)
    requires 1 <= start < upTo <= end < |data| && start <= j < upTo
    ensures Deviation(data, start, end, j) <= Deviation(data, start, end, Best(data, start, end, upTo))
    ensures j < Best(data, start, end, upTo) ==>
              Deviation(data, start, end, j) < Deviation(data, start, end, Best(data, start, end, upTo))
    decreases upTo
  {
    hide Deviation;
    if j < upTo - 1 {
      BestDeviatesMost(data, start, end, upTo - 1, j);
    } else if start < upTo - 1 {
      BestDeviatesMost(data, start, end, upTo - 1, start);
    }
  }

  /** Points standing on one straight line with the bucket's neighbours deviate
      by nothing, and any other point by something: peaks outlast flat stretches. */
  lemma DeviationIsZeroIff(data: seq<Snapshot>, start: int, end: int, j: int)
    requires 1 <= start <= j < end < |data|
    ensures Deviation(data, start, end, j) >= 0.0
    ensures Deviation(data, start, end, j) == 0.0 <==>
            (data[j].pageCount - data[start - 1].pageCount) * (end - start + 1)
            == (data[end].pageCount - data[start - 1].pageCount) * (j - start + 1)
  {
    var p, q, y := data[start - 1].pageCount, data[end].pageCount, data[j].pageCount;
    var u, v := j - start + 1, end - start + 1;
    var t := u as real / v as real;
    assert t * v as real == u as real;
    LineThrough(p as real, q as real, y as real, t, u as real, v as real);
    assert ((y - p) * v) as real == (y as real - p as real) * v as real;
    assert ((q - p) * u) as real == (q as real - p as real) * u as real;
  }

  /** How far a point is off the line, in whole numbers. */
  lemma DeviationIs(data: seq<Snapshot>, start: int, end: int, j: int)
    requires 1 <= start <= j < end < |data|
    ensures var p, q, y := data[start - 1].pageCount, data[end].pageCount, data[j].pageCount;
            var gap := p * (end - start + 1) + (q - p) * (j - start + 1) - y * (end - start + 1);
            Deviation(data, start, end, j) * (end - start + 1) as real == (if gap < 0 then -gap else gap) as real
  {
    var p, q, y := data[start - 1].pageCount, data[end].pageCount, data[j].pageCount;
    var u, v := j - start + 1, end - start + 1;
    var t := u as real / v as real;
    assert t * v as real == u as real;
    var gap := p * v + (q - p) * u - y * v;
    var e := p as real + t * (q as real - p as real) - y as real;
    OffLine(p as real, q as real, y as real, t, u as real, v as real);
    assert (p * v) as real == p as real * v as real && (y * v) as real == y as real * v as real;
    assert ((q - p) * u) as real == (q as real - p as real) * u as real;
    assert e * v as real == gap as real;
    Sign(e, v as real);
  }

  lemma OffLine(p: real, q: real, y: real, t: real, u: real, v: real)
    requires t * v == u
    ensures (p + t * (q - p) - y) * v == p * v + (q - p) * u - y * v
  {
    assert t * (q - p) * v == (q - p) * (t * v);
  }

  lemma Sign(e: real, v: real)
    requires v > 0.0
    ensures e < 0.0 <==> e * v < 0.0
    ensures -e * v == -(e * v)
  {
  }

  lemma LineThrough(p: real, q: real, y: real, t: real, u: real, v: real)
    requires v > 0.0 && t * v == u
    ensures p + t * (q - p) == y <==> (y - p) * v == (q - p) * u
  {
    var e := p + t * (q - p) - y;
    assert e * v == (q - p) * (t * v) - (y - p) * v;
    assert e != 0.0 ==> e * v != 0.0;
  }

  // ----- the whole series -----

  /** The index kept from each bucket. */
  function MiddlePick(data: seq<Snapshot>, target: int, i: int): (k: int)
    requires |data| > target >= 3 && 0 <= i < target - 2
    ensures InBucket(|data|, target, i, k) && 1 <= k < |data| - 1
  {
    BoundsInRange(|data|, target, i);
    Best(data, Bound(|data|, target, i), Bound(|data|, target, i + 1), Bound(|data|, target, i + 1))
  }

  function Picks(data: seq<Snapshot>, target: int): (picks: seq<int>)
    requires |data| > target >= 3
    ensures forall i | 0 <= i < |picks| :: 0 <= picks[i] < |data|
  {
    [0] + seq(target - 2, i requires 0 <= i < target - 2 => MiddlePick(data, target, i)) + [|data| - 1]
  }

  function Take(data: seq<Snapshot>, picks: seq<int>): seq<Snapshot>
    requires forall i | 0 <= i < |picks| :: 0 <= picks[i] < |data|
  {
    seq(|picks|, i requires 0 <= i < |picks| => data[picks[i]])
  }

  /** Exactly the wanted number of points is kept, in order, with the first and
      the last among them and one from each bucket. */
  lemma PicksAreOrdered(data: seq<Snapshot>, target: int)
    requires |data| > target >= 3
    ensures var picks := Picks(data, target);
            && |picks| == target && picks[0] == 0 && picks[target - 1] == |data| - 1
            && (forall i, j | 0 <= i < j < target :: picks[i] < picks[j])
            && (forall j | 1 <= j < target - 1 :: InBucket(|data|, target, j - 1, picks[j]))
  {
    hide Bound, Best;
    var picks := Picks(data, target);
    var n := |data|;
    forall i, j | 0 <= i < j < target ensures picks[i] < picks[j] {
      if 0 < i && j < target - 1 {
        assert picks[i] == MiddlePick(data, target, i - 1) && picks[j] == MiddlePick(data, target, j - 1);
        BoundsGrow(n, target, i, j - 1);
      } else if i == 0 && j < target - 1 {
        assert picks[j] == MiddlePick(data, target, j - 1);
      } else if 0 < i {
        assert picks[i] == MiddlePick(data, target, i - 1);
      }
    }
    forall j | 1 <= j < target - 1 ensures InBucket(n, target, j - 1, picks[j]) {
      assert picks[j] == MiddlePick(data, target, j - 1);
    }
  }

  /** Each point kept from the middle is the first of those in its bucket that
      are farthest off the line between the bucket's neighbours. */
  lemma PicksStandOut(data: seq<Snapshot>, target: int, i: int, k: int)
    requires |data| > target >= 3 && 0 <= i < target - 2 && InBucket(|data|, target, i, k)
    ensures var start, end, pick := Bound(|data|, target, i), Bound(|data|, target, i + 1), Picks(data, target)[i + 1];
            && 1 <= start <= pick < end < |data|
            && Deviation(data, start, end, k) <= Deviation(data, start, end, pick)
            && (k < pick ==> Deviation(data, start, end, k) < Deviation(data, start, end, pick))
  {
    hide Bound, Deviation;
    var start, end := Bound(|data|, target, i), Bound(|data|, target, i + 1);
    BoundsInRange(|data|, target, i);
    assert Picks(data, target)[i + 1] == MiddlePick(data, target, i);
    BestDeviatesMost(data, start, end, end, k);
  }

  /** A point that stands out from all others in its bucket is always kept. */
  lemma PeaksAreKept(data: seq<Snapshot>, target: int, i: int, k: int)
    requires |data| > target >= 3 && 0 <= i < target - 2 && InBucket(|data|, target, i, k)
    requires var start, end := Bound(|data|, target, i), Bound(|data|, target, i + 1);
             && 1 <= start && end < |data|
             && forall j | start <= j < end && j != k :: Deviation(data, start, end, j) < Deviation(data, start, end, k)
    ensures k in Picks(data, target)
  {
    hide Bound, Deviation;
    PicksStandOut(data, target, i, k);
    PicksAreOrdered(data, target);
    assert Picks(data, target)[i + 1] == k;
  }

  method BestOf(data: seq<Snapshot>, start: int, end: int) returns (bestIdx: int)
    requires 1 <= start < end < |data|
    ensures bestIdx == Best(data, start, end, end)
  {
    hide *;
    bestIdx := start;
    var maxDelta := 0.0;
    var prevValue, nextValue := Pages(data, start - 1), Pages(data, end);
    for j := start to end
      invariant j == start ==> bestIdx == start && maxDelta == 0.0
      invariant j > start ==> bestIdx == Best(data, start, end, j) && maxDelta == Deviation(data, start, end, bestIdx)
    {
      var expected := Expected(prevValue, nextValue, start, end, j);
      var delta := expected - Pages(data, j);
      if delta < 0.0 {
        delta := -delta;
      }
      DeviationParts(data, start, end, j);
      if j > start {
        BestNext(data, start, end, j);
      } else {
        BestFirst(data, start, end);
      }
      if delta > maxDelta {
        maxDelta := delta;
        bestIdx := j;
      }
    }
  }

  lemma DeviationParts(data: seq<Snapshot>, start: int, end: int, j: int)
    requires 1 <= start <= j < end < |data|
    ensures var gap := Expected(Pages(data, start - 1), Pages(data, end), start, end, j) - Pages(data, j);
            Deviation(data, start, end, j) == if gap < 0.0 then -gap else gap
  {
    hide Expected, Pages;
  }

  lemma BestFirst(data: seq<Snapshot>, start: int, end: int)
    requires 1 <= start < end < |data|
    ensures Best(data, start, end, start + 1) == start && Deviation(data, start, end, start) >= 0.0
  {
    hide Expected;
  }

  lemma BestNext(data: seq<Snapshot>, start: int, end: int, j: int)
    requires 1 <= start < j < end < |data|
    ensures var best := Best(data, start, end, j);
            Best(data, start, end, j + 1) == if Deviation(data, start, end, j) > Deviation(data, start, end, best) then j else best
  {
    hide Deviation;
  }

  /** A short series, or one wanted shorter than three points, is left alone. */
  method DownsampleAgentMetrics(data: seq<Snapshot>, targetPoints: int) returns (result: seq<Snapshot>)
    ensures |data| <= targetPoints || targetPoints < 3 ==> result == data
    ensures |data| > targetPoints >= 3 ==> result == Take(data, Picks(data, targetPoints))
  {
    hide *;
    var n := |data|;
    if n <= targetPoints || targetPoints < 3 {
      return data;
    }
    result := [data[0]];
    var bucketSize := BucketSize(n, targetPoints);
    TakeFirst(data, targetPoints);
    for i := 0 to targetPoints - 2
      invariant i < |Picks(data, targetPoints)| && result == Take(data, Picks(data, targetPoints)[..i + 1])
    {
      var bucketStart := (i as real * bucketSize).Floor + 1;
      var bucketEnd := ((i + 1) as real * bucketSize).Floor + 1;
      BoundParts(n, targetPoints, bucketSize, i);
      BoundParts(n, targetPoints, bucketSize, i + 1);
      BoundsInRange(n, targetPoints, i);
      if bucketEnd > n - 1 {
        bucketEnd := n - 1;
      }
      if bucketStart >= bucketEnd {
        continue;
      }
      assert bucketStart == Bound(n, targetPoints, i) && bucketEnd == Bound(n, targetPoints, i + 1);
      var bestIdx := BestOf(data, bucketStart, bucketEnd);
      TakeNext(data, targetPoints, i);
      result := result + [data[bestIdx]];
    }
    TakeLast(data, targetPoints);
    result := result + [data[n - 1]];
  }

  lemma BoundParts(n: int, target: int, size: real, i: int)
    requires target >= 3 && size == BucketSize(n, target)
    ensures Bound(n, target, i) == (i as real * size).Floor + 1
  {
  }

  lemma TakeFirst(data: seq<Snapshot>, target: int)
    requires |data| > target >= 3
    ensures |Picks(data, target)| == target
    ensures Take(data, Picks(data, target)[..1]) == [data[0]]
  {
  }

  lemma TakeNext(data: seq<Snapshot>, target: int, i: int)
    requires |data| > target >= 3 && 0 <= i < target - 2
    ensures |Picks(data, target)| == target
    ensures var start, end := Bound(|data|, target, i), Bound(|data|, target, i + 1);
            && 1 <= start < end < |data|
            && Take(data, Picks(data, target)[..i + 2]) ==
               Take(data, Picks(data, target)[..i + 1]) + [data[Best(data, start, end, end)]]
  {
    hide Bound, Best;
    BoundsInRange(|data|, target, i);
    assert Picks(data, target)[i + 1] == MiddlePick(data, target, i);
  }

  lemma TakeLast(data: seq<Snapshot>, target: int)
    requires |data| > target >= 3
    ensures |Picks(data, target)| == target
    ensures Take(data, Picks(data, target)) == Take(data, Picks(data, target)[..target - 1]) + [data[|data| - 1]]
  {
    hide Bound, Best, MiddlePick;
  }
}
