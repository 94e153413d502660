/** The multi-signal core: all-or-nothing batch append over a set of rings.

    A batch is validated completely, against the retained histories and against its own
    earlier samples, before any ring changes. The reference is `PutAll`, which extends one
    plain history per signal; time must never run backwards within a signal. */
module SignalCore {
  import opened Common
  import opened SignalRing

  const MAX_BATCH: nat := 100000000
  const MAX_SIGNALS: nat := 4096
  const MAX_NAME: nat := 1024

  datatype Double = NonFinite | Finite(value: real)
  datatype Sample = Sample(signal: nat, time: Double, value: Double)
  datatype Outcome = Accepted | BatchTooLarge | UnknownSignal | BadTime | BadValue | OutOfOrder

  type Histories = seq<seq<Point>>

  ghost predicate Sorted(h: seq<Point>) {
    && (forall i :: 0 <= i < |h| ==> h[i].time >= 0.0)
    && (forall i, j :: 0 <= i < j < |h| ==> h[i].time <= h[j].time)
  }

  ghost predicate AllSorted(h: Histories) { forall k :: 0 <= k < |h| ==> Sorted(h[k]) }

  function LastTime(h: seq<Point>): real { if h == [] then 0.0 else h[|h|-1].time }

  /** A sample that can be stored at all: known signal, finite nonnegative time, finite value. */
  predicate WellFormed(signals: nat, s: Sample) {
    0 < s.signal <= signals && s.time.Finite? && s.time.value >= 0.0 && s.value.Finite?
  }

  function Judge(h: Histories, s: Sample): (verdict: Outcome)
    ensures verdict == UnknownSignal <==> s.signal == 0 || s.signal > |h|
    ensures verdict == BadTime ==> s.time.NonFinite? || s.time.value < 0.0
    ensures verdict == BadValue ==> s.time.Finite? && s.value.NonFinite?
    ensures verdict == OutOfOrder ==> WellFormed(|h|, s) && s.time.value < LastTime(h[s.signal - 1])
    ensures verdict in {Accepted, OutOfOrder} <==> WellFormed(|h|, s)
  {
    if !(0 < s.signal <= |h|) then UnknownSignal
    else if s.time.NonFinite? || s.time.value < 0.0 then BadTime
    else if s.value.NonFinite? then BadValue
    else if s.time.value < LastTime(h[s.signal - 1]) then OutOfOrder
    else Accepted
  }

  function Put(h: Histories, s: Sample): (g: Histories)
    ensures |g| == |h|
  {
    if WellFormed(|h|, s) then h[s.signal - 1 := h[s.signal - 1] + [Point(s.time.value, s.value.value)]] else h
  }

  function PutAll(h: Histories, batch: seq<Sample>): (g: Histories)
    ensures |g| == |h|
  {
    if batch == [] then h else Put(PutAll(h, batch[..|batch|-1]), batch[|batch|-1])
  }

  /** The points that the samples of one signal in a batch stand for, in order. */
  function PointsFor(batch: seq<Sample>, signal: nat): seq<Point> {
    if batch == [] then []
    else
      var s := batch[|batch|-1];
      PointsFor(batch[..|batch|-1], signal)
        + if s.signal == signal && s.time.Finite? && s.value.Finite? then [Point(s.time.value, s.value.value)] else []
  }

  /** Storing a batch adds to every history exactly the points of its own signal, in order. */
  lemma {:induction false} PutAllAdds(h: Histories, batch: seq<Sample>, k: nat)
    requires k < |h| && forall i :: 0 <= i < |batch| ==> WellFormed(|h|, batch[i])
    ensures PutAll(h, batch)[k] == h[k] + PointsFor(batch, k + 1)
  {
    if batch != [] {
      var front := batch[..|batch|-1];
      assert forall i :: 0 <= i < |front| ==> front[i] == batch[i];
      PutAllAdds(h, front, k);
    }
  }

  /** The verdict on a batch is the verdict on its first sample that is refused after its predecessors. */
  function JudgeAll(h: Histories, batch: seq<Sample>): Outcome {
    if batch == [] then Accepted
    else
      var before := JudgeAll(h, batch[..|batch|-1]);
      if before != Accepted then before else Judge(PutAll(h, batch[..|batch|-1]), batch[|batch|-1])
  }

  /** Accepted for its order exactly when storing it keeps every signal's times sorted. */
  lemma PutSortedIff(h: Histories, s: Sample)
    requires AllSorted(h) && WellFormed(|h|, s)
    ensures Judge(h, s) == Accepted <==> AllSorted(Put(h, s))
  {
    var k, g := s.signal - 1, Put(h, s);
    if AllSorted(g) {
      assert Sorted(g[k]);
      assert h[k] != [] ==> g[k][|h[k]| - 1].time <= g[k][|h[k]|].time;
    }
    if Judge(h, s) == Accepted {
      forall j | 0 <= j < |g| ensures Sorted(g[j]) {
        assert Sorted(h[j]);
      }
    }
  }

  /** Storing more samples never repairs an order that is already broken. */
  lemma PutSortedBefore(h: Histories, s: Sample)
    requires AllSorted(Put(h, s))
    ensures AllSorted(h)
  {
    var g := Put(h, s);
    forall k | 0 <= k < |h| ensures Sorted(h[k]) {
      assert Sorted(g[k]) && h[k] <= g[k];
      assert forall i :: 0 <= i < |h[k]| ==> h[k][i] == g[k][i];
    }
  }

  /** On sorted histories a batch is accepted exactly when every sample is well formed and
      storing the whole batch leaves every signal sorted by time. */
  lemma {:induction false} AcceptedIff(h: Histories, batch: seq<Sample>)
    requires AllSorted(h)
    ensures JudgeAll(h, batch) == Accepted <==>
      (forall i :: 0 <= i < |batch| ==> WellFormed(|h|, batch[i])) && AllSorted(PutAll(h, batch))
  {
    if batch != [] {
      var front, s := batch[..|batch|-1], batch[|batch|-1];
      AcceptedIff(h, front);
      assert forall i :: 0 <= i < |front| ==> front[i] == batch[i];
      if AllSorted(PutAll(h, batch)) { PutSortedBefore(PutAll(h, front), s); }
      if AllSorted(PutAll(h, front)) && WellFormed(|h|, s) { PutSortedIff(PutAll(h, front), s); }
    }
  }

  /** Time of the newest retained sample, or zero for an empty ring. */
  method LastStored(ring: Ring) returns (t: real)
    requires ring.Valid()
    ensures t == LastTime(ring.history)
  {
    hide Staircase, Window, Ring.At;
    ring.SizeIsContents();
    if ring.Size() > 0 { t := ring.At(ring.Size() - 1).time; } else { t := 0.0; }
  }

  class Core {
    const capacity: nat
    var names: map<string, nat>
    var rings: seq<Ring>
    ghost var hist: Histories

    ghost predicate Valid()
      reads this, rings
    {
      && capacity > 0
      && |hist| == |rings| <= MAX_SIGNALS
      && (forall j, k :: 0 <= j < k < |rings| ==> rings[j] != rings[k])
      && (forall k :: 0 <= k < |rings| ==>
        rings[k].Valid() && rings[k].capacity == capacity && rings[k].history == hist[k])
      && (forall n :: n in names ==> 0 < names[n] <= |rings|)
      && AllSorted(hist)
    }

    constructor (limit: nat)
      requires limit > 0
      ensures Valid() && capacity == limit && names == map[] && hist == []
    {
      capacity, names, rings, hist := limit, map[], [], [];
    }

    method EnsureSignal(name: string) returns (ok: bool, signal: nat)
      requires Valid()
      modifies this
      ensures Valid()
      ensures ok == (0 < |name| <= MAX_NAME && (name in old(names) || |old(rings)| < MAX_SIGNALS))
      ensures ok ==> name in names && signal == names[name] && names == old(names)[name := signal]
      ensures ok && name in old(names) ==> signal == old(names)[name] && rings == old(rings)
      ensures |rings| >= |old(rings)| && rings[..|old(rings)|] == old(rings)
      ensures hist == if ok && name !in old(names) then old(hist) + [[]] else old(hist)
      ensures ok && name !in old(names) ==> signal == |rings|
      ensures !ok ==> names == old(names) && rings == old(rings)
    {
      hide Staircase, Window;
      ok, signal := false, 0;
      if |name| == 0 || |name| > MAX_NAME { return; }
      if name in names { return true, names[name]; }
      if |rings| >= MAX_SIGNALS { return; }
      var ring := new Ring(capacity);
      ok, signal := true, |rings| + 1;
      rings, names, hist := rings + [ring], names[name := |rings| + 1], hist + [[]];
    }

    /** The first pass of `xcp_core_append`: nothing is written, the verdict is final. */
    method Validate(batch: seq<Sample>) returns (outcome: Outcome)
      requires Valid()
      ensures outcome == JudgeAll(hist, batch)
    {
      hide Staircase, Window, Sorted;
      var previous: map<nat, real> := map[];
      for n := 0 to |batch|
        invariant JudgeAll(hist, batch[..n]) == Accepted
        invariant forall id :: 0 < id <= |rings| ==>
          LastTime(PutAll(hist, batch[..n])[id-1]) == if id in previous then previous[id] else LastTime(hist[id-1])
      {
        var s := batch[n];
        ghost var now := PutAll(hist, batch[..n]);
        assert batch[..n+1][..n] == batch[..n];
        assert JudgeAll(hist, batch[..n+1]) == Judge(now, s);
        if !(0 < s.signal <= |rings|) { outcome := UnknownSignal; JudgeStops(hist, batch, n + 1); return; }
        if s.time.NonFinite? || s.time.value < 0.0 { outcome := BadTime; JudgeStops(hist, batch, n + 1); return; }
        if s.value.NonFinite? { outcome := BadValue; JudgeStops(hist, batch, n + 1); return; }
        var ring := rings[s.signal - 1];
        var last := LastStored(ring);
        if s.signal in previous { last := previous[s.signal]; }
        assert last == LastTime(now[s.signal - 1]);
        if s.time.value < last { outcome := OutOfOrder; JudgeStops(hist, batch, n + 1); return; }
        previous := previous[s.signal := s.time.value];
      }
      assert batch[..|batch|] == batch;
      outcome := Accepted;
    }

    /** `xcp_core_append`: either every sample is stored in order in the history of its signal, or
        nothing changes. */
    method Append(batch: seq<Sample>) returns (outcome: Outcome)
      requires Valid()
      modifies this`hist, rings
      ensures Valid() && rings == old(rings)
      ensures outcome == if |batch| > MAX_BATCH then BatchTooLarge else JudgeAll(old(hist), batch)
      ensures hist == if outcome == Accepted then PutAll(old(hist), batch) else old(hist)
      ensures outcome == Accepted ==> forall k :: 0 <= k < |rings| ==> hist[k] == old(hist)[k] + PointsFor(batch, k + 1)
      ensures outcome != Accepted ==> forall r :: r in rings ==> unchanged(r)
    {
      hide Staircase, Window, Sorted;
      if |batch| > MAX_BATCH { return BatchTooLarge; }
      outcome := Validate(batch);
      if outcome != Accepted { return; }
      AcceptedIff(hist, batch);
      ghost var before := hist;
      for n := 0 to |batch|
        invariant hist == PutAll(before, batch[..n])
        invariant |hist| == |rings|
        invariant forall k :: 0 <= k < |rings| ==>
          rings[k].Valid() && rings[k].capacity == capacity && rings[k].history == hist[k]
      {
        hide *;
        var s := batch[n];
        StoreOne(s);
        PutAllNext(before, batch, n);
      }
      assert batch[..|batch|] == batch;
      forall k | 0 <= k < |rings| ensures hist[k] == before[k] + PointsFor(batch, k + 1) { PutAllAdds(before, batch, k); }
    }

    method StoreOne(s: Sample)
      requires WellFormed(|rings|, s) && |hist| == |rings|
      requires forall j, k :: 0 <= j < k < |rings| ==> rings[j] != rings[k]
      requires forall k :: 0 <= k < |rings| ==>
        rings[k].Valid() && rings[k].capacity == capacity && rings[k].history == hist[k]
      modifies this`hist, rings[s.signal - 1]
      ensures hist == Put(old(hist), s)
      ensures forall k :: 0 <= k < |rings| ==>
        rings[k].Valid() && rings[k].capacity == capacity && rings[k].history == hist[k]
    {
      hide Staircase, Window;
      var popped := rings[s.signal - 1].Append(s.time.value, s.value.value);
      hist := Put(hist, s);
    }

    method Clear()
      requires Valid()
      modifies this`hist, rings
      ensures Valid() && rings == old(rings)
      ensures forall k :: 0 <= k < |hist| ==> hist[k] == []
    {
      hide Staircase, Window;
      for n := 0 to |rings|
        invariant |hist| == |rings|
        invariant forall k :: 0 <= k < n ==> hist[k] == []
        invariant forall k :: n <= k < |rings| ==> hist[k] == old(hist[k])
        invariant forall k :: 0 <= k < |rings| ==>
          rings[k].Valid() && rings[k].capacity == capacity && rings[k].history == hist[k]
      {
        rings[n].Clear();
        hist := hist[n := []];
      }
    }
  }

  lemma PutAllNext(h: Histories, batch: seq<Sample>, n: nat)
    requires n < |batch|
    ensures PutAll(h, batch[..n+1]) == Put(PutAll(h, batch[..n]), batch[n])
  {
    assert batch[..n+1][..n] == batch[..n];
  }

  /** Once a prefix is refused, the whole batch is refused with the same verdict. */
  lemma {:induction false} JudgeStops(h: Histories, batch: seq<Sample>, n: nat)
    requires n <= |batch| && JudgeAll(h, batch[..n]) != Accepted
    ensures JudgeAll(h, batch) == JudgeAll(h, batch[..n])
    decreases |batch|
  {
    if n == |batch| {
      assert batch[..n] == batch;
    } else {
      assert batch[..|batch|-1][..n] == batch[..n];
      JudgeStops(h, batch[..|batch|-1], n);
    }
  }
}
