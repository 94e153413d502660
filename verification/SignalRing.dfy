/** The circular sample history of one signal, with its two monotonic deques.

    The C++ `Ring` keeps the newest `capacity` samples in a vector that is overwritten
    in place, and two deques from which the running minimum and maximum are read in
    constant time. The reference is a plain sequence `history` of everything appended
    since the last clear; the ring must look like its last `capacity` samples.
    Doubles are modelled as `real`: non-finite input never reaches a ring. */
module SignalRing {
  import opened Common
  import DivMod

  datatype Point = Point(time: real, value: real)
  datatype Entry = Entry(index: nat, value: real)

  /** Index of the oldest retained sample after `count` appends. */
  function FirstKept(count: nat, capacity: nat): nat { if count > capacity then count - capacity else 0 }

  /** The last `capacity` samples of `s`, or all of them. */
  function Last(s: seq<Point>, capacity: nat): seq<Point> { s[FirstKept(|s|, capacity)..] }

  /** The end of the history, as long as the capacity allows. */
  lemma LastIs(s: seq<Point>, capacity: nat)
    ensures var r := Last(s, capacity); |r| == Min(|s|, capacity) && s == s[..|s| - |r|] + r
  {}

  /** `a` is at least as extreme as `b`: smaller when `low`, larger otherwise. */
  predicate Beats(low: bool, a: real, b: real) { if low then a <= b else a >= b }

  /** `x` is the minimum (`low`) or the maximum of the values of `s`. */
  ghost predicate IsExtreme(low: bool, x: real, s: seq<Point>) {
    && (exists i :: 0 <= i < |s| && s[i].value == x)
    && (forall i :: 0 <= i < |s| ==> Beats(low, x, s[i].value))
  }

  /** `x` beats every sample from index `from` on. */
  ghost predicate BeatsFrom(low: bool, x: real, h: seq<Point>, from: nat) {
    forall i :: from <= i < |h| ==> Beats(low, x, h[i].value)
  }

  /** First sample that entry `k` answers for: the one after its predecessor in the deque. */
  ghost function Reach(d: seq<Entry>, k: nat, first: nat): nat
    requires k <= |d|
  {
    if k == 0 then first else d[k-1].index + 1
  }

  /** Entries copy samples of the window. */
  ghost predicate Copies(d: seq<Entry>, h: seq<Point>, first: nat) {
    forall k :: 0 <= k < |d| ==> first <= d[k].index < |h| && d[k].value == h[d[k].index].value
  }

  /** Indices increase and values get strictly worse towards the back. */
  ghost predicate Ordered(low: bool, d: seq<Entry>) {
    forall j, k :: 0 <= j < k < |d| ==> d[j].index < d[k].index && !Beats(low, d[k].value, d[j].value)
  }

  /** Every entry is the extreme of all samples after its predecessor in the deque. */
  ghost predicate Reaches(low: bool, d: seq<Entry>, h: seq<Point>, first: nat) {
    forall k {:trigger Reach(d, k, first)} :: 0 <= k < |d| ==> BeatsFrom(low, d[k].value, h, Reach(d, k, first))
  }

  /** The invariant of a monotonic deque over the window `h[first..]`. */
  ghost predicate Staircase(low: bool, d: seq<Entry>, h: seq<Point>, first: nat) {
    && Copies(d, h, first)
    && Ordered(low, d)
    && Reaches(low, d, h, first)
    && (first < |h| ==> |d| > 0 && d[|d|-1].index == |h| - 1)
  }

  lemma FrontIsExtreme(low: bool, d: seq<Entry>, h: seq<Point>, first: nat)
    requires first < |h| && Staircase(low, d, h, first)
    ensures IsExtreme(low, d[0].value, h[first..])
  {
    hide Ordered;
    assert h[first..][d[0].index - first] == h[d[0].index];
    assert BeatsFrom(low, d[0].value, h, Reach(d, 0, first));
  }

  lemma PushReaches(low: bool, d: seq<Entry>, h: seq<Point>, first: nat, m: nat, p: Point)
    requires first <= |h| && Staircase(low, d, h, first) && m <= |d|
    requires forall k :: m <= k < |d| ==> Beats(low, p.value, d[k].value)
    requires m > 0 ==> !Beats(low, p.value, d[m-1].value)
    ensures Reaches(low, d[..m] + [Entry(|h|, p.value)], h + [p], first)
  {
    var e, g := d[..m] + [Entry(|h|, p.value)], h + [p];
    forall k | 0 <= k < |e| ensures BeatsFrom(low, e[k].value, g, Reach(e, k, first)) {
      if k < m {
        assert BeatsFrom(low, d[k].value, h, Reach(d, k, first)) && Reach(d, k, first) == Reach(e, k, first);
        assert k < m - 1 ==> !Beats(low, d[m-1].value, d[k].value);
      } else if m < |d| {
        assert BeatsFrom(low, d[m].value, h, Reach(d, m, first));
        assert Beats(low, p.value, d[m].value);
      } else if m > 0 {
        assert d[m-1].index == |h| - 1;
      }
    }
  }

  lemma PushOrdered(low: bool, d: seq<Entry>, m: nat, x: Entry)
    requires Ordered(low, d) && m <= |d|
    requires forall k :: 0 <= k < |d| ==> d[k].index < x.index
    requires m > 0 ==> !Beats(low, x.value, d[m-1].value)
    ensures Ordered(low, d[..m] + [x])
  {
    var e := d[..m] + [x];
    forall j, k | 0 <= j < k < |e| ensures e[j].index < e[k].index && !Beats(low, e[k].value, e[j].value) {
      assert e[j] == d[j];
      if k == m && j < m - 1 { assert !Beats(low, d[m-1].value, d[j].value); }
    }
  }

  /** Dropping every back entry that the new sample beats, then pushing it, keeps the staircase. */
  lemma PushKeepsStaircase(low: bool, d: seq<Entry>, h: seq<Point>, first: nat, m: nat, p: Point)
    requires first <= |h| && Staircase(low, d, h, first) && m <= |d|
    requires forall k :: m <= k < |d| ==> Beats(low, p.value, d[k].value)
    requires m > 0 ==> !Beats(low, p.value, d[m-1].value)
    ensures Staircase(low, d[..m] + [Entry(|h|, p.value)], h + [p], first)
  {
    PushReaches(low, d, h, first, m, p);
    PushOrdered(low, d, m, Entry(|h|, p.value));
  }

  /** Moving the window by one and expiring at most the front entry keeps the staircase. */
  lemma DropKeepsStaircase(low: bool, d: seq<Entry>, h: seq<Point>, first: nat)
    requires first + 1 < |h| && Staircase(low, d, h, first)
    ensures Staircase(low, if d[0].index < first + 1 then d[1..] else d, h, first + 1)
  {
    if d[0].index == first {
      TailKeepsStaircase(low, d, h, first);
    } else {
      assert d[0].index > first;
      hide *;
      SameKeepsStaircase(low, d, h, first);
    }
  }

  lemma SameKeepsStaircase(low: bool, d: seq<Entry>, h: seq<Point>, first: nat)
    requires first + 1 < |h| && Staircase(low, d, h, first) && d[0].index > first
    ensures Staircase(low, d, h, first + 1)
  {
    hide Beats;
    forall k | 0 <= k < |d| ensures first + 1 <= d[k].index {
      assert k > 0 ==> d[0].index < d[k].index;
    }
    assert Copies(d, h, first + 1);
    forall k | 0 <= k < |d| ensures BeatsFrom(low, d[k].value, h, Reach(d, k, first + 1)) {
      assert BeatsFrom(low, d[k].value, h, Reach(d, k, first));
    }
  }

  lemma TailKeepsStaircase(low: bool, d: seq<Entry>, h: seq<Point>, first: nat)
    requires first + 1 < |h| && Staircase(low, d, h, first) && d[0].index == first
    ensures Staircase(low, d[1..], h, first + 1)
  {
    var e := d[1..];
    forall k | 0 <= k < |e| ensures BeatsFrom(low, e[k].value, h, Reach(e, k, first + 1)) {
      assert BeatsFrom(low, d[k + 1].value, h, Reach(d, k + 1, first));
    }
    forall k | 0 <= k < |e| ensures first + 1 <= e[k].index {
      assert d[0].index < d[k + 1].index;
    }
    assert Ordered(low, e) by {
      forall j, k | 0 <= j < k < |e| ensures e[j].index < e[k].index && !Beats(low, e[k].value, e[j].value) {
        assert d[j + 1].index < d[k + 1].index;
      }
    }
  }

  /** A deque without the back entries that `value` beats. */
  function Unbeaten(low: bool, d: seq<Entry>, value: real): (e: seq<Entry>)
    ensures |e| <= |d| && e == d[..|e|]
  {
    if d != [] && Beats(low, value, d[|d|-1].value) then Unbeaten(low, d[..|d|-1], value) else d
  }

  /** A deque without the front entries older than the window. */
  function Unexpired(d: seq<Entry>, oldest: nat): (e: seq<Entry>)
    ensures |e| <= |d|
  {
    if d != [] && d[0].index < oldest then Unexpired(d[1..], oldest) else d
  }

  /** The C++ loop `while (!d.empty() && beats(value, d.back())) d.pop_back();`, counting its pops. */
  method PopBeaten(low: bool, d: seq<Entry>, value: real) returns (e: seq<Entry>, popped: nat)
    ensures |e| + popped == |d| && e == d[..|e|] == Unbeaten(low, d, value)
    ensures forall k :: |e| <= k < |d| ==> Beats(low, value, d[k].value)
    ensures |e| > 0 ==> !Beats(low, value, d[|e|-1].value)
  {
    e, popped := d, 0;
    while |e| > 0 && Beats(low, value, e[|e|-1].value)
      invariant |e| + popped == |d| && e == d[..|e|]
      invariant Unbeaten(low, e, value) == Unbeaten(low, d, value)
      invariant forall k :: |e| <= k < |d| ==> Beats(low, value, d[k].value)
    {
      e, popped := e[..|e|-1], popped + 1;
    }
  }

  /** The C++ loop `while (d.front().first < oldest) d.pop_front();`, counting its pops. */
  method PopExpired(d: seq<Entry>, oldest: nat) returns (e: seq<Entry>, popped: nat)
    requires |d| > 0 && d[|d|-1].index >= oldest
    ensures |e| > 0 && |e| + popped == |d| && e == d[popped..] == Unexpired(d, oldest) && e[0].index >= oldest
    ensures forall k :: 0 <= k < popped ==> d[k].index < oldest
  {
    e, popped := d, 0;
    while e[0].index < oldest
      invariant 0 < |e| && |e| + popped == |d| && e == d[popped..]
      invariant Unexpired(e, oldest) == Unexpired(d, oldest)
      invariant forall k :: 0 <= k < popped ==> d[k].index < oldest
      decreases |e|
    {
      assert e[|e|-1] == d[|d|-1];
      e, popped := e[1..], popped + 1;
    }
  }

  /** The slot computed from the wrapped start equals the slot of the absolute index. */
  lemma SlotOf(count: nat, capacity: nat, index: nat)
    requires 0 < capacity <= count
    ensures (count % capacity + index) % capacity == (count - capacity + index) % capacity
  {
    var a, b := count - capacity + index, count % capacity + index;
    var q, t := count / capacity - 1, b / capacity;
    assert a == q * capacity + b;
    assert (q + t) * capacity == q * capacity + t * capacity;
    DivMod.Unique(a, q + t, b % capacity, capacity);
  }

  /** Every retained sample of `h` sits in its slot of the circular vector. */
  ghost predicate Window(points: seq<Point>, h: seq<Point>, capacity: nat)
    requires capacity > 0
  {
    && |points| == Min(|h|, capacity)
    && forall i :: FirstKept(|h|, capacity) <= i < |h| ==> i % capacity < |points| && points[i % capacity] == h[i]
  }

  /** Vector slot of window position `index` after `count` appends. */
  function Slot(count: nat, capacity: nat, index: nat): nat
    requires capacity > 0
  {
    var start := if count >= capacity then count % capacity else 0;
    (start + index) % capacity
  }

  lemma AtSlot(points: seq<Point>, h: seq<Point>, capacity: nat, index: nat)
    requires capacity > 0 && Window(points, h, capacity) && index < |points|
    ensures |points| == |Last(h, capacity)|
    ensures Slot(|h|, capacity, index) < |points| && points[Slot(|h|, capacity, index)] == Last(h, capacity)[index]
  {
    var absolute := FirstKept(|h|, capacity) + index;
    if |h| >= capacity { SlotOf(|h|, capacity, index); }
    assert absolute % capacity < |points| && points[absolute % capacity] == h[absolute];
  }

  lemma StoreKeepsWindow(points: seq<Point>, h: seq<Point>, capacity: nat, p: Point)
    requires capacity > 0 && Window(points, h, capacity) && |points| == capacity
    ensures |h| % capacity < capacity && Window(points[|h| % capacity := p], h + [p], capacity)
  {
    var stored, g := points[|h| % capacity := p], h + [p];
    forall i | FirstKept(|g|, capacity) <= i < |h| ensures i % capacity < |stored| && stored[i % capacity] == g[i] {
      DivMod.Distinct(i, |h|, capacity);
      assert points[i % capacity] == h[i];
    }
  }

  lemma GrowKeepsWindow(points: seq<Point>, h: seq<Point>, capacity: nat, p: Point)
    requires capacity > 0 && Window(points, h, capacity) && |points| < capacity
    ensures Window(points + [p], h + [p], capacity)
  {
    forall i | 0 <= i <= |h| ensures i % capacity == i {
      DivMod.Unique(i, 0, i, capacity);
    }
    forall i | 0 <= i < |h| ensures points[i] == h[i] {
      assert points[i % capacity] == h[i];
    }
  }

  /** Deque indices are distinct, so the window moving by one expires at most one of them. */
  lemma ExpireKeepsStaircase(low: bool, d: seq<Entry>, e: seq<Entry>, h: seq<Point>, first: nat, oldest: nat)
    requires first < |h| && Staircase(low, d, h, first)
    requires oldest == first || (oldest == first + 1 < |h|)
    requires 0 < |e| <= |d| && e == d[|d|-|e|..] && e[0].index >= oldest
    requires forall k :: 0 <= k < |d| - |e| ==> d[k].index < oldest
    ensures Staircase(low, e, h, oldest)
  {
    hide Reaches, Beats;
    assert |d| > 1 ==> first <= d[0].index < d[1].index;
    assert |d| - |e| <= 1 && (|e| < |d| <==> d[0].index < oldest);
    hide Copies, Ordered;
    assert e == if d[0].index < oldest then d[1..] else d;
    if oldest > first { DropKeepsStaircase(low, d, h, first); }
  }

  /** One deque after a sample: drop what it beats, push it, expire what left the window. */
  function Slid(low: bool, d: seq<Entry>, sequence: nat, capacity: nat, p: Point): (e: seq<Entry>)
    ensures |e| <= |d| + 1
  {
    Unexpired(Unbeaten(low, d, p.value) + [Entry(sequence, p.value)], FirstKept(sequence + 1, capacity))
  }

  method Slide(low: bool, d: seq<Entry>, ghost h: seq<Point>, capacity: nat, sequence: nat, p: Point)
    returns (e: seq<Entry>, popped: nat)
    requires capacity > 0 && sequence == |h| && Staircase(low, d, h, FirstKept(|h|, capacity))
    ensures Staircase(low, e, h + [p], FirstKept(|h| + 1, capacity))
    ensures e == Slid(low, d, sequence, capacity, p) && popped + |e| == |d| + 1
  {
    hide Staircase, Unbeaten, Unexpired;
    ghost var first := FirstKept(|h|, capacity);
    e, popped := PopBeaten(low, d, p.value);
    PushKeepsStaircase(low, d, h, first, |e|, p);
    e := e + [Entry(sequence, p.value)];
    ghost var pushed := e;
    var oldest, expired := if sequence + 1 > capacity then sequence + 1 - capacity else 0, 0;
    e, expired := PopExpired(e, oldest);
    ExpireKeepsStaircase(low, pushed, e, h + [p], first, oldest);
    popped := popped + expired;
  }

  class Ring {
    const capacity: nat
    var sequence: nat
    var points: seq<Point>
    var minima: seq<Entry>
    var maxima: seq<Entry>
    ghost var history: seq<Point>  // appended since the last clear
    ghost var appends: nat         // appends over the whole life of the ring
    ghost var pops: nat            // entries ever popped from either deque, at either end

    ghost predicate Valid()
      reads this
    {
      && capacity > 0
      && sequence == |history|
      && Window(points, history, capacity)
      && Staircase(true, minima, history, FirstKept(sequence, capacity))
      && Staircase(false, maxima, history, FirstKept(sequence, capacity))
      && pops + |minima| + |maxima| <= 2 * appends
    }

    /** What the ring logically holds, oldest first. */
    ghost function Contents(): seq<Point>
      reads this
    {
      Last(history, capacity)
    }

    constructor (limit: nat)
      requires limit > 0
      ensures Valid() && capacity == limit && history == [] && appends == 0 && pops == 0
      ensures sequence == 0 && minima == [] && maxima == []
    {
      capacity, sequence, points, minima, maxima := limit, 0, [], [], [];
      history, appends, pops := [], 0, 0;
    }

    function Size(): nat
      reads this
    {
      |points|
    }

    function At(index: nat): (p: Point)
      requires Valid() && index < Size()
      reads this
      ensures index < |Contents()|
      ensures p == Contents()[index]
    {
      hide Staircase, Window, Slot;
      AtSlot(points, history, capacity, index);
      points[Slot(sequence, capacity, index)]
    }

    lemma SizeIsContents()
      requires Valid()
      ensures Size() == |Contents()|
    {}

    method Append(time: real, value: real) returns (ghost popped: nat)
      requires Valid()
      modifies this
      ensures Valid()
      ensures history == old(history) + [Point(time, value)] && appends == old(appends) + 1
      ensures minima == Slid(true, old(minima), old(sequence), capacity, Point(time, value))
      ensures maxima == Slid(false, old(maxima), old(sequence), capacity, Point(time, value))
      ensures popped == old(|minima|) + 1 - |minima| + old(|maxima|) + 1 - |maxima| && pops == old(pops) + popped
    {
      hide Staircase, Slid;
      var p := Point(time, value);
      assert |points| == Min(sequence, capacity);
      hide Window;
      if |points| < capacity {
        GrowKeepsWindow(points, history, capacity, p);
        points := points + [p];
      } else {
        StoreKeepsWindow(points, history, capacity, p);
        points := points[sequence % capacity := p];
      }
      var lows, lowPops := Slide(true, minima, history, capacity, sequence, p);
      var highs, highPops := Slide(false, maxima, history, capacity, sequence, p);
      popped := lowPops + highPops;
      pops := pops + popped;
      minima, maxima, sequence := lows, highs, sequence + 1;
      history, appends := history + [p], appends + 1;
    }

    method Clear()
      requires Valid()
      modifies this
      ensures Valid() && history == [] && appends == old(appends) && pops == old(pops)
      ensures sequence == 0 && minima == [] && maxima == []
    {
      sequence, points, minima, maxima := 0, [], [], [];
      history := [];
    }

    /** `xcp_core_stats`: the deque fronts are the extremes of the whole window. */
    method Stats() returns (latest: real, minimum: real, maximum: real, count: nat)
      requires Valid()
      ensures count == |Contents()|
      ensures count == 0 ==> latest == 0.0 && minimum == 0.0 && maximum == 0.0
      ensures count > 0 ==>
        && latest == Contents()[count-1].value
        && IsExtreme(true, minimum, Contents())
        && IsExtreme(false, maximum, Contents())
    {
      latest, minimum, maximum, count := 0.0, 0.0, 0.0, Size();
      if count > 0 {
        latest, minimum, maximum := At(count - 1).value, minima[0].value, maxima[0].value;
        FrontIsExtreme(true, minima, history, FirstKept(sequence, capacity));
        FrontIsExtreme(false, maxima, history, FirstKept(sequence, capacity));
      }
    }
  }

  datatype Op = Add(point: Point) | Reset

  /** The samples appended after the last clear of a run. */
  function Replay(ops: seq<Op>): seq<Point> {
    if ops == [] then []
    else match ops[|ops|-1]
      case Add(p) => Replay(ops[..|ops|-1]) + [p]
      case Reset => []
  }

  function Adds(ops: seq<Op>): nat {
    if ops == [] then 0 else Adds(ops[..|ops|-1]) + if ops[|ops|-1].Add? then 1 else 0
  }

  /** The deque of a run: what one `Slid` after the other leaves since the last clear. */
  function DequeOf(low: bool, ops: seq<Op>, capacity: nat): seq<Entry> {
    if ops == [] then []
    else
      var front := ops[..|ops|-1];
      match ops[|ops|-1]
      case Add(p) => Slid(low, DequeOf(low, front, capacity), |Replay(front)|, capacity, p)
      case Reset => []
  }

  /** Entries popped from one deque over a run; a clear is no pop. */
  function PopsOf(low: bool, ops: seq<Op>, capacity: nat): nat {
    if ops == [] then 0
    else
      var front := ops[..|ops|-1];
      PopsOf(low, front, capacity)
      + if ops[|ops|-1].Add? then |DequeOf(low, front, capacity)| + 1 - |DequeOf(low, ops, capacity)| else 0
  }

  /** Over any run, every deque pops at most once for every append. */
  lemma {:induction false} PopsAmortised(low: bool, ops: seq<Op>, capacity: nat)
    ensures PopsOf(low, ops, capacity) + |DequeOf(low, ops, capacity)| <= Adds(ops)
  {
    hide Slid;
    if ops != [] { PopsAmortised(low, ops[..|ops|-1], capacity); }
  }

  /** Any run of appends and clears: the ring reads back as the last `capacity` samples since the
      last clear, its statistics are theirs, and both deques together pop exactly as often as the
      reference deques of the run, which is at most twice for every append. */
  method RunRing(capacity: nat, ops: seq<Op>)
    returns (read: seq<Point>, latest: real, minimum: real, maximum: real, count: nat, ghost pops: nat)
    requires capacity > 0
    ensures read == Last(Replay(ops), capacity) && count == |read|
    ensures count > 0 ==> latest == read[count-1].value && IsExtreme(true, minimum, read) && IsExtreme(false, maximum, read)
    ensures pops == PopsOf(true, ops, capacity) + PopsOf(false, ops, capacity) <= 2 * Adds(ops)
  {
    hide Staircase, Window, IsExtreme, Slid;
    var ring := new Ring(capacity);
    for n := 0 to |ops|
      invariant ring.Valid() && fresh(ring) && ring.capacity == capacity
      invariant ring.history == Replay(ops[..n]) && ring.appends == Adds(ops[..n])
      invariant ring.minima == DequeOf(true, ops[..n], capacity) && ring.maxima == DequeOf(false, ops[..n], capacity)
      invariant ring.pops == PopsOf(true, ops[..n], capacity) + PopsOf(false, ops[..n], capacity)
    {
      assert ops[..n+1][..n] == ops[..n];
      match ops[n]
      case Add(p) => var popped := ring.Append(p.time, p.value);
      case Reset => ring.Clear();
    }
    assert ops[..|ops|] == ops;
    PopsAmortised(true, ops, capacity);
    PopsAmortised(false, ops, capacity);
    latest, minimum, maximum, count := ring.Stats();
    ring.SizeIsContents();
    read := [];
    for i := 0 to count
      invariant read == ring.Contents()[..i]
    {
      read := read + [ring.At(i)];
    }
    pops := ring.pops;
  }
}
