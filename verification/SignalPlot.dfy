/** Reading a ring for the screen: min/max decimation, time-range queries, cursor lookup.

    The output buffer is the caller's array, as in the C interface; its length plays the
    role of the `capacity` argument. Ghost results name the ring positions that were emitted,
    so that the promises are about samples and not about how the loops run. */
module SignalPlot {
  import DivMod
  import opened Common
  import opened SignalRing
  import opened SignalCore

  // ----- where the buckets lie

  /** Offset of the first interior sample of bucket `k`, by floor division. */
  function Edge(k: nat, interior: nat, buckets: nat): nat
    requires buckets > 0
  {
    (k * interior) / buckets
  }

  /** The buckets partition the interior, and each holds at least two samples. */
  lemma BucketsPartition(k: nat, interior: nat, buckets: nat)
    requires k < buckets && 2 * buckets <= interior
    ensures Edge(0, interior, buckets) == 0 && Edge(buckets, interior, buckets) == interior
    ensures Edge(k, interior, buckets) + 2 <= Edge(k + 1, interior, buckets) <= interior
  {
    DivMod.Unique(buckets * interior, interior, 0, buckets);
    DivMod.Unique(0, 0, 0, buckets);
    var x := k * interior;
    assert (k + 1) * interior == x + interior;
    DivMod.AddMultiple(x, 2, buckets);
    DivMod.Mono(x + 2 * buckets, x + interior, buckets);
    DivMod.MulMono(k + 1, buckets, interior);
    DivMod.Mono((k + 1) * interior, buckets * interior, buckets);
  }

  // ----- what a decimated plot must contain

  /** Position `m` holds an extreme value of positions `[lo, hi)`. */
  ghost predicate BestIn(low: bool, c: seq<Point>, m: nat, lo: nat, hi: nat) {
    lo <= m < hi <= |c| && forall i :: lo <= i < hi ==> Beats(low, c[m].value, c[i].value)
  }

  ghost predicate HasExtreme(low: bool, c: seq<Point>, idx: seq<nat>, lo: nat, hi: nat) {
    exists k :: 0 <= k < |idx| && BestIn(low, c, idx[k], lo, hi)
  }

  function Abs(x: real): (a: real)
    ensures a >= x && a >= -x && (a == x || a == -x)
  {
    if x < 0.0 then -x else x
  }

  ghost predicate LargestIn(c: seq<Point>, m: nat, lo: nat, hi: nat) {
    lo <= m < hi <= |c| && forall i :: lo <= i < hi ==> Abs(c[i].value) <= Abs(c[m].value)
  }

  ghost predicate Increasing(idx: seq<nat>, first: nat, end: nat) {
    && (forall k :: 0 <= k < |idx| ==> first <= idx[k] < end)
    && (forall j, k :: 0 <= j < k < |idx| ==> idx[j] < idx[k])
  }

  /** Bucket `k` has its minimum and its maximum among the emitted positions. */
  ghost predicate BucketKept(c: seq<Point>, idx: seq<nat>, first: nat, interior: nat, buckets: nat, k: nat)
    requires k < buckets
  {
    var lo, hi := first + 1 + Edge(k, interior, buckets), first + 1 + Edge(k + 1, interior, buckets);
    HasExtreme(true, c, idx, lo, hi) && HasExtreme(false, c, idx, lo, hi)
  }

  /** Every bucket below `n` has its minimum and its maximum among the emitted positions. */
  ghost predicate BucketsKept(c: seq<Point>, idx: seq<nat>, first: nat, interior: nat, buckets: nat, n: nat)
    requires n <= buckets
  {
    forall k :: 0 <= k < n ==> BucketKept(c, idx, first, interior, buckets, k)
  }

  /** The promise of a plot of positions `[first, end)` with a budget. */
  ghost predicate Decimated(c: seq<Point>, idx: seq<nat>, first: nat, end: nat, budget: nat) {
    var size := end - first;
    && first <= end <= |c|
    && Increasing(idx, first, end)
    && (size <= budget ==> idx == seq(size, (i: nat) => first + i))
    && (size > budget > 0 ==>
      && 0 < |idx| <= budget
      && idx[|idx|-1] == end - 1
      && (budget >= 2 ==> |idx| >= 2 && idx[0] == first)
      && (budget == 3 ==> |idx| == 3 && LargestIn(c, idx[1], first + 1, end - 1))
      && (budget >= 4 ==> BucketsKept(c, idx, first, size - 2, (budget - 2) / 2, (budget - 2) / 2)))
  }

  lemma JoinExtremes(low: bool, c: seq<Point>, idx: seq<nat>, lo: nat, mid: nat, hi: nat)
    requires HasExtreme(low, c, idx, lo, mid) && HasExtreme(low, c, idx, mid, hi)
    ensures HasExtreme(low, c, idx, lo, hi)
  {
    var j :| 0 <= j < |idx| && BestIn(low, c, idx[j], lo, mid);
    var k :| 0 <= k < |idx| && BestIn(low, c, idx[k], mid, hi);
    var best := if Beats(low, c[idx[j]].value, c[idx[k]].value) then j else k;
    assert BestIn(low, c, idx[best], lo, hi);
  }

  lemma {:induction false} BucketsJoin(low: bool, c: seq<Point>, idx: seq<nat>, first: nat, interior: nat, buckets: nat, n: nat)
    requires 0 < n <= buckets && 2 * buckets <= interior && BucketsKept(c, idx, first, interior, buckets, buckets)
    ensures HasExtreme(low, c, idx, first + 1, first + 1 + Edge(n, interior, buckets))
  {
    hide Edge, HasExtreme;
    BucketsPartition(0, interior, buckets);
    assert BucketKept(c, idx, first, interior, buckets, n - 1);
    if n > 1 {
      BucketsJoin(low, c, idx, first, interior, buckets, n - 1);
      JoinExtremes(low, c, idx, first + 1, first + 1 + Edge(n - 1, interior, buckets), first + 1 + Edge(n, interior, buckets));
    }
  }

  /** With a budget of at least four no spike is lost: the plot shows the minimum and the
      maximum of the whole range it was asked for. */
  lemma PlotKeepsExtremes(low: bool, c: seq<Point>, idx: seq<nat>, first: nat, end: nat, budget: nat)
    requires Decimated(c, idx, first, end, budget) && budget >= 4 && first < end
    ensures HasExtreme(low, c, idx, first, end)
  {
    hide Increasing;
    var size := end - first;
    if size <= budget {
      AllKept(low, c, idx, first, end);
    } else {
      var buckets := (budget - 2) / 2;
      BucketsPartition(0, size - 2, buckets);
      BucketsJoin(low, c, idx, first, size - 2, buckets, buckets);
      assert BestIn(low, c, idx[0], first, first + 1);
      assert BestIn(low, c, idx[|idx|-1], end - 1, end);
      JoinExtremes(low, c, idx, first, first + 1, end - 1);
      JoinExtremes(low, c, idx, first, end - 1, end);
    }
  }

  lemma AllKept(low: bool, c: seq<Point>, idx: seq<nat>, first: nat, end: nat)
    requires first < end <= |c| && idx == seq(end - first, (i: nat) => first + i)
    ensures HasExtreme(low, c, idx, first, end)
    decreases end - first
  {
    if end - first == 1 {
      assert BestIn(low, c, idx[0], first, end);
    } else {
      AllKept(low, c, idx[..|idx|-1], first, end - 1);
      var k :| 0 <= k < |idx| - 1 && BestIn(low, c, idx[k], first, end - 1);
      var best := if Beats(low, c[idx[k]].value, c[end-1].value) then k else |idx| - 1;
      assert BestIn(low, c, idx[best], first, end);
    }
  }

  // ----- plot_ring

  /** The first `|idx|` cells of the output are the samples at positions `idx`. */
  ghost predicate Copied(c: seq<Point>, output: seq<Point>, idx: seq<nat>) {
    |idx| <= |output| && forall k :: 0 <= k < |idx| ==> idx[k] < |c| && output[k] == c[idx[k]]
  }

  method Emit(ring: Ring, output: array<Point>, written: nat, index: nat, ghost idx: seq<nat>)
    returns (next: nat, ghost more: seq<nat>)
    requires ring.Valid() && index < ring.Size() && written == |idx| < output.Length
    requires Copied(ring.Contents(), output[..], idx)
    modifies output
    ensures next == written + 1 && more == idx + [index]
    ensures Copied(ring.Contents(), output[..], more)
    ensures forall k :: next <= k < output.Length ==> output[k] == old(output[k])
  {
    hide Staircase, Window, Ring.At;
    ring.SizeIsContents();
    output[written] := ring.At(index);
    next, more := written + 1, idx + [index];
  }

  /** Inner loop of a bucket: earliest position of its minimum and of its maximum. */
  method Extremes(ring: Ring, begin: nat, stop: nat) returns (low: nat, high: nat)
    requires ring.Valid() && begin < stop <= ring.Size()
    ensures BestIn(true, ring.Contents(), low, begin, stop) && BestIn(false, ring.Contents(), high, begin, stop)
    ensures low == high ==> forall i :: begin <= i < stop ==> ring.Contents()[i].value == ring.Contents()[begin].value
  {
    hide Staircase, Window, Ring.At;
    ring.SizeIsContents();
    low, high := begin, begin;
    for index := begin + 1 to stop
      invariant BestIn(true, ring.Contents(), low, begin, index) && BestIn(false, ring.Contents(), high, begin, index)
    {
      if ring.At(index).value < ring.At(low).value { low := index; }
      if ring.At(index).value > ring.At(high).value { high := index; }
    }
  }

  method LargestAbs(ring: Ring, begin: nat, stop: nat) returns (extreme: nat)
    requires ring.Valid() && begin < stop <= ring.Size()
    ensures begin <= extreme < stop && LargestIn(ring.Contents(), extreme, begin, stop)
  {
    hide Staircase, Window, Ring.At;
    ring.SizeIsContents();
    extreme := begin;
    for index := begin + 1 to stop
      invariant LargestIn(ring.Contents(), extreme, begin, index)
    {
      if Abs(ring.At(index).value) > Abs(ring.At(extreme).value) { extreme := index; }
    }
  }

  lemma MoreKeepsExtreme(c: seq<Point>, idx: seq<nat>, more: seq<nat>)
    requires |idx| <= |more| && more[..|idx|] == idx
    ensures forall low, lo, hi :: HasExtreme(low, c, idx, lo, hi) ==> HasExtreme(low, c, more, lo, hi)
  {
    forall low, lo, hi | HasExtreme(low, c, idx, lo, hi) ensures HasExtreme(low, c, more, lo, hi) {
      var k :| 0 <= k < |idx| && BestIn(low, c, idx[k], lo, hi);
      assert more[k] == idx[k];
    }
  }

  lemma EmitIncreases(idx: seq<nat>, index: nat, first: nat, from: nat, end: nat)
    requires first <= from <= index < end && Increasing(idx, first, from)
    ensures Increasing(idx + [index], first, end)
  {}

  /** One pass of the bucket loop: both extremes of the bucket, in time order. */
  method PlotBucket(ring: Ring, begin: nat, stop: nat, first: nat, output: array<Point>, written: nat, ghost idx: seq<nat>)
    returns (next: nat, ghost more: seq<nat>)
    requires ring.Valid() && first <= begin < stop <= ring.Size() && written == |idx| && |idx| + 2 <= output.Length
    requires Copied(ring.Contents(), output[..], idx) && Increasing(idx, first, begin)
    modifies output
    ensures next == |more| <= written + 2 && idx <= more
    ensures Copied(ring.Contents(), output[..], more) && Increasing(more, first, stop)
    ensures HasExtreme(true, ring.Contents(), more, begin, stop) && HasExtreme(false, ring.Contents(), more, begin, stop)
    ensures forall k :: next <= k < output.Length ==> output[k] == old(output[k])
  {
    hide Staircase, Window, Ring.At, Copied;
    var low, high := Extremes(ring, begin, stop);
    ghost var c := ring.Contents();
    var early, late := Min(low, high), if low <= high then high else low;
    EmitIncreases(idx, early, first, begin, early + 1);
    next, more := Emit(ring, output, written, early, idx);
    if low != high {
      EmitIncreases(more, late, first, early + 1, stop);
      ghost var one := more;
      next, more := Emit(ring, output, next, late, more);
      assert more[|idx|] == early && more[|idx| + 1] == late;
    } else {
      assert more[|idx|] == early;
    }
    assert BestIn(true, c, low, begin, stop) && BestIn(false, c, high, begin, stop);
  }

  /** All buckets of the interior, in order. */
  method PlotBuckets(ring: Ring, first: nat, end: nat, buckets: nat, output: array<Point>, ghost start: seq<nat>)
    returns (written: nat, ghost idx: seq<nat>)
    requires ring.Valid() && first + 2 <= end <= ring.Size() && buckets > 0 && 2 * buckets <= end - first - 2
    requires start == [first] && 1 + 2 * buckets <= output.Length && Copied(ring.Contents(), output[..], start)
    modifies output
    ensures written == |idx| <= 1 + 2 * buckets && start <= idx
    ensures Copied(ring.Contents(), output[..], idx) && Increasing(idx, first, end - 1)
    ensures BucketsKept(ring.Contents(), idx, first, end - first - 2, buckets, buckets)
    ensures forall k :: written <= k < output.Length ==> output[k] == old(output[k])
  {
    hide Staircase, Window, Ring.At, Copied, HasExtreme, Edge, Increasing;
    written, idx := 1, start;
    var interior := end - first - 2;
    BucketsPartition(0, interior, buckets);
    assert Increasing(idx, first, first + 1) by { StartIncreases(first); }
    for bucket := 0 to buckets
      invariant written == |idx| <= 1 + 2 * bucket && start <= idx
      invariant Copied(ring.Contents(), output[..], idx)
      invariant Increasing(idx, first, first + 1 + Edge(bucket, interior, buckets))
      invariant BucketsKept(ring.Contents(), idx, first, interior, buckets, bucket)
      invariant forall k :: written <= k < output.Length ==> output[k] == old(output[k])
    {
      BucketsPartition(bucket, interior, buckets);
      var begin, stop := first + 1 + Edge(bucket, interior, buckets), first + 1 + Edge(bucket + 1, interior, buckets);
      ghost var before := idx;
      written, idx := PlotBucket(ring, begin, stop, first, output, written, idx);
      MoreKeepsBuckets(ring.Contents(), before, idx, first, interior, buckets, bucket);
      assert forall k :: written <= k < output.Length ==> output[k] == old(output[k]);
    }
  }

  lemma StartIncreases(first: nat)
    ensures Increasing([first], first, first + 1)
  {}

  lemma MoreKeepsBuckets(c: seq<Point>, idx: seq<nat>, more: seq<nat>, first: nat, interior: nat, buckets: nat, n: nat)
    requires n <= buckets && idx <= more && BucketsKept(c, idx, first, interior, buckets, n)
    ensures BucketsKept(c, more, first, interior, buckets, n)
  {
    forall k | 0 <= k < n ensures BucketKept(c, more, first, interior, buckets, k) {
      assert BucketKept(c, idx, first, interior, buckets, k);
      MoreKeepsExtreme(c, idx, more);
    }
  }

  /** A range that fits the budget is copied sample by sample. */
  method PlotAll(ring: Ring, first: nat, end: nat, output: array<Point>)
    returns (written: nat, ghost idx: seq<nat>)
    requires ring.Valid() && first <= end <= ring.Size() && end - first <= output.Length
    modifies output
    ensures written == end - first && idx == seq(end - first, (i: nat) => first + i)
    ensures Copied(ring.Contents(), output[..], idx)
    ensures forall k :: written <= k < output.Length ==> output[k] == old(output[k])
  {
    hide Staircase, Window, Ring.At, Copied;
    written, idx := 0, [];
    assert Copied(ring.Contents(), output[..], idx) by { NothingCopied(ring.Contents(), output[..]); }
    for index := first to end
      invariant written == |idx| == index - first && idx == seq(index - first, (i: nat) => first + i)
      invariant Copied(ring.Contents(), output[..], idx)
      invariant forall k :: written <= k < output.Length ==> output[k] == old(output[k])
    {
      written, idx := Emit(ring, output, written, index, idx);
    }
  }

  lemma NothingCopied(c: seq<Point>, output: seq<Point>)
    ensures Copied(c, output, [])
  {}

  /** Budgets one to three: the last sample; the endpoints; the endpoints and the interior
      sample of largest magnitude. */
  method PlotFew(ring: Ring, first: nat, end: nat, budget: nat, output: array<Point>)
    returns (written: nat, ghost idx: seq<nat>)
    requires ring.Valid() && first <= end <= ring.Size() && 0 < budget < end - first && budget <= output.Length && budget <= 3
    modifies output
    ensures written == |idx| && Copied(ring.Contents(), output[..], idx)
    ensures Decimated(ring.Contents(), idx, first, end, budget)
    ensures forall k :: written <= k < output.Length ==> output[k] == old(output[k])
  {
    hide Staircase, Window, Ring.At, BucketsKept, LargestIn, Copied;
    ring.SizeIsContents();
    NothingCopied(ring.Contents(), output[..]);
    if budget == 1 {
      written, idx := Emit(ring, output, 0, end - 1, []);
      return;
    }
    written, idx := Emit(ring, output, 0, first, []);
    if budget == 3 {
      var extreme := LargestAbs(ring, first + 1, end - 1);
      written, idx := Emit(ring, output, written, extreme, idx);
    }
    written, idx := Emit(ring, output, written, end - 1, idx);
  }

  /** Budgets of four and more: the endpoints and both extremes of every bucket. */
  method PlotMany(ring: Ring, first: nat, end: nat, budget: nat, output: array<Point>)
    returns (written: nat, ghost idx: seq<nat>)
    requires ring.Valid() && first <= end <= ring.Size() && 4 <= budget < end - first && budget <= output.Length
    modifies output
    ensures written == |idx| && Copied(ring.Contents(), output[..], idx)
    ensures Decimated(ring.Contents(), idx, first, end, budget)
    ensures forall k :: written <= k < output.Length ==> output[k] == old(output[k])
  {
    hide Staircase, Window, Ring.At, BucketsKept, Copied, Increasing, LargestIn;
    ring.SizeIsContents();
    NothingCopied(ring.Contents(), output[..]);
    var buckets := (budget - 2) / 2;
    written, idx := Emit(ring, output, 0, first, []);
    written, idx := PlotBuckets(ring, first, end, buckets, output, idx);
    MoreKeepsBuckets(ring.Contents(), idx, idx + [end - 1], first, end - first - 2, buckets, buckets);
    EmitIncreases(idx, end - 1, first, end - 1, end);
    written, idx := Emit(ring, output, written, end - 1, idx);
  }

  /** `plot_ring`: refused when the output is too small, otherwise the promise of `Decimated`. */
  method PlotRing(ring: Ring, first: nat, end: nat, budget: nat, output: array<Point>)
    returns (ok: bool, written: nat, ghost idx: seq<nat>)
    requires ring.Valid() && first <= end <= ring.Size() && budget > 0
    modifies output
    ensures ok == (output.Length >= Min(budget, end - first))
    ensures !ok ==> written == 0
    ensures ok ==> written == |idx| && Copied(ring.Contents(), output[..], idx)
    ensures ok ==> Decimated(ring.Contents(), idx, first, end, budget)
    ensures forall k :: written <= k < output.Length ==> output[k] == old(output[k])
  {
    hide Staircase, Window, Ring.At, BucketsKept, LargestIn;
    ring.SizeIsContents();
    ok, written, idx := output.Length >= Min(budget, end - first), 0, [];
    if !ok { return; }
    if end - first <= budget {
      written, idx := PlotAll(ring, first, end, output);
    } else {
      hide Copied, Decimated;
      if budget < 4 {
        written, idx := PlotFew(ring, first, end, budget, output);
      } else {
        written, idx := PlotMany(ring, first, end, budget, output);
      }
      CopiedFits(ring.Contents(), output[..], idx);
    }
  }

  lemma CopiedFits(c: seq<Point>, output: seq<Point>, idx: seq<nat>)
    requires Copied(c, output, idx)
    ensures |idx| <= |output|
  {}

  // ----- time queries

  /** The binary search of range queries and of the cursor lookup: first position with time `>= t`, or `> t` when `upper`. */
  method Bound(ring: Ring, t: real, upper: bool) returns (low: nat)
    requires ring.Valid() && Sorted(ring.Contents())
    ensures low <= |ring.Contents()|
    ensures forall i :: 0 <= i < low ==> ring.Contents()[i].time < t || (upper && ring.Contents()[i].time == t)
    ensures forall i :: low <= i < |ring.Contents()| ==> ring.Contents()[i].time > t || (!upper && ring.Contents()[i].time == t)
  {
    hide Staircase, Window, Ring.At;
    ring.SizeIsContents();
    low := 0;
    var high := ring.Size();
    while low < high
      invariant low <= high <= ring.Size()
      invariant forall i :: 0 <= i < low ==> ring.Contents()[i].time < t || (upper && ring.Contents()[i].time == t)
      invariant forall i :: high <= i < ring.Size() ==> ring.Contents()[i].time > t || (!upper && ring.Contents()[i].time == t)
    {
      var middle := low + (high - low) / 2;
      var stamp := ring.At(middle).time;
      if stamp < t || (upper && stamp == t) { low := middle + 1; } else { high := middle; }
    }
  }

  /** Positions `[lo, hi)` are the samples with time in `[first, last]` and at most one
      neighbour on each side, so that lines cross the edges of the view. Only a range that misses
      the retained span is empty. */
  ghost predicate Covers(c: seq<Point>, lo: nat, hi: nat, first: real, last: real) {
    && lo <= hi <= |c|
    && (forall i :: 0 <= i < |c| && first <= c[i].time <= last ==> lo <= i < hi)
    && (forall i :: lo < i < hi - 1 ==> first <= c[i].time <= last)
    && (lo < hi ==> (lo == 0 || c[lo].time < first) && (hi == |c| || c[hi-1].time > last))
    && (lo + 1 < hi ==> c[lo].time <= last && first <= c[hi-1].time)
    && (|c| > 0 && c[0].time <= last && first <= c[|c|-1].time ==> lo < hi)
  }

  lemma BoundsCover(c: seq<Point>, begin: nat, end: nat, first: real, last: real)
    requires |c| > 0 && Sorted(c) && first <= last && first <= c[|c|-1].time && c[0].time <= last
    requires begin <= |c| && end <= |c|
    requires forall i :: 0 <= i < begin ==> c[i].time < first
    requires forall i :: begin <= i < |c| ==> c[i].time >= first
    requires forall i :: 0 <= i < end ==> c[i].time <= last
    requires forall i :: end <= i < |c| ==> c[i].time > last
    ensures Covers(c, if begin > 0 then begin - 1 else 0, Min(end + 1, |c|), first, last)
    ensures (if begin > 0 then begin - 1 else 0) < Min(end + 1, |c|)
  {
    assert begin < |c| && end > 0;
    var k := Min(end, |c| - 1);
    assert end <= k ==> c[k].time > last;
  }

  predicate ValidQuery(first: Double, last: Double, budget: nat) {
    budget > 0 && first.Finite? && last.Finite? && first.value <= last.value
  }

  /** `xcp_core_plot_range`: the covered range, decimated to the budget. */
  method PlotRange(ring: Ring, first: Double, last: Double, budget: nat, output: array<Point>)
    returns (ok: bool, written: nat, ghost idx: seq<nat>, ghost lo: nat, ghost hi: nat)
    requires ring.Valid() && Sorted(ring.Contents())
    modifies output
    ensures !ValidQuery(first, last, budget) ==> !ok
    ensures ValidQuery(first, last, budget) ==>
      Covers(ring.Contents(), lo, hi, first.value, last.value) && ok == (output.Length >= Min(budget, hi - lo))
    ensures ok ==> written == |idx| && Copied(ring.Contents(), output[..], idx) && Decimated(ring.Contents(), idx, lo, hi, budget)
  {
    hide Staircase, Window, Ring.At, Decimated, Copied;
    ring.SizeIsContents();
    ok, written, idx, lo, hi := false, 0, [], 0, 0;
    if !ValidQuery(first, last, budget) { return; }
    var size := ring.Size();
    if size == 0 || last.value < ring.At(0).time || first.value > ring.At(size - 1).time {
      ok := true;
      EmptyPlot(ring.Contents(), output[..], budget);
      return;
    }
    var begin := Bound(ring, first.value, false);
    var end := Bound(ring, last.value, true);
    BoundsCover(ring.Contents(), begin, end, first.value, last.value);
    lo, hi := if begin > 0 then begin - 1 else 0, Min(end + 1, size);
    hide Covers, Sorted;
    ok, written, idx := PlotRing(ring, if begin > 0 then begin - 1 else 0, Min(end + 1, size), budget, output);
  }

  lemma EmptyPlot(c: seq<Point>, output: seq<Point>, budget: nat)
    ensures Copied(c, output, []) && Decimated(c, [], 0, 0, budget)
  {}

  /** `value` lies on the segment between two samples, at time `t`. */
  ghost predicate OnSegment(value: real, t: real, a: Point, b: Point) {
    && a.time < t < b.time
    && value * (b.time - a.time) == a.value * (b.time - t) + b.value * (t - a.time)
    && (a.value <= value <= b.value || b.value <= value <= a.value)
  }

  lemma UnitFraction(x: real, d: real, y: real)
    requires d > 0.0 && x * d == y && 0.0 <= y <= d
    ensures 0.0 <= x <= 1.0
  {}

  lemma Interpolated(a: Point, b: Point, t: real, fraction: real)
    requires a.time < t < b.time && fraction == (t - a.time) / (b.time - a.time)
    ensures OnSegment((1.0 - fraction) * a.value + fraction * b.value, t, a, b)
  {
    var d, v := b.time - a.time, (1.0 - fraction) * a.value + fraction * b.value;
    assert fraction * d == t - a.time;
    UnitFraction(fraction, d, t - a.time);
    assert v == a.value + fraction * (b.value - a.value);
    var e := b.value - a.value;
    assert v * d == a.value * d + (fraction * d) * e;
    if e >= 0.0 {
      assert 0.0 <= fraction * e <= e by { assert (1.0 - fraction) * e >= 0.0; }
    } else {
      assert e <= fraction * e <= 0.0 by { assert (1.0 - fraction) * e <= 0.0; }
    }
  }

  /** `xcp_core_value_at`: nothing outside the retained span; at a sample time the last sample
      with that time; between two samples a point of their segment. */
  method ValueAt(ring: Ring, time: Double) returns (ok: bool, value: real, found: bool, interpolated: bool, ghost at: nat)
    requires ring.Valid() && Sorted(ring.Contents())
    ensures ok == time.Finite?
    ensures ok ==> (found <==>
      |ring.Contents()| > 0 && ring.Contents()[0].time <= time.value <= ring.Contents()[|ring.Contents()|-1].time)
    ensures ok && found ==>
      && at < |ring.Contents()| && ring.Contents()[at].time <= time.value
      && (at + 1 < |ring.Contents()| ==> ring.Contents()[at+1].time > time.value)
    ensures ok && found && !interpolated ==> ring.Contents()[at].time == time.value && value == ring.Contents()[at].value
    ensures ok && found && interpolated ==>
      at + 1 < |ring.Contents()| && OnSegment(value, time.value, ring.Contents()[at], ring.Contents()[at+1])
    ensures !found ==> value == 0.0 && !interpolated
  {
    hide Staircase, Window, Ring.At, OnSegment, Sorted;
    ring.SizeIsContents();
    ok, value, found, interpolated, at := time.Finite?, 0.0, false, false, 0;
    if !ok { return; }
    var t, size := time.value, ring.Size();
    if size == 0 || t < ring.At(0).time || t > ring.At(size - 1).time { return; }
    var low := Bound(ring, t, true);
    assert low > 0 by { assert ring.Contents()[0].time <= t; }
    var left := ring.At(low - 1);
    found, at := true, low - 1;
    if left.time == t || low == size {
      value := left.value;
      return;
    }
    var right := ring.At(low);
    var fraction := (t - left.time) / (right.time - left.time);
    value, interpolated := (1.0 - fraction) * left.value + fraction * right.value, true;
    Interpolated(left, right, t, fraction);
  }
}
