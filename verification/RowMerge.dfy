/** The k-way merge that exports all signals as rows of one table.

    Every signal is a series sorted by time, possibly with repeated times. A row is named
    by its key (time, occurrence number of that time within a signal); the merge pops equal
    keys off a heap into one row. `heapq` is a library: its heap is a set here, and popping
    returns a least element. */
module RowMerge {
  import opened SignalRing
  import SignalCore

  datatype Key = Key(stamp: real, occurrence: nat)
  datatype Pending = Pending(key: Key, signal: nat, index: nat)
  datatype Row = Row(stamp: real, values: map<nat, real>)

  type Series = seq<seq<Point>>

  predicate Less(a: Key, b: Key) { a.stamp < b.stamp || (a.stamp == b.stamp && a.occurrence < b.occurrence) }

  predicate Before(a: Pending, b: Pending) { Less(a.key, b.key) || (a.key == b.key && a.signal <= b.signal) }

  ghost predicate Sorted(points: seq<Point>) { forall i, j :: 0 <= i < j < |points| ==> points[i].time <= points[j].time }

  /** How many directly preceding samples carry the same time. */
  function Occurrence(points: seq<Point>, i: nat): nat
    requires i < |points|
  {
    if i > 0 && points[i-1].time == points[i].time then Occurrence(points, i - 1) + 1 else 0
  }

  function KeyOf(points: seq<Point>, i: nat): Key
    requires i < |points|
  {
    Key(points[i].time, Occurrence(points, i))
  }

  /** How many of the first `n` samples carry the time `t`. */
  function TimesBefore(points: seq<Point>, n: nat, t: real): nat
    requires n <= |points|
  {
    if n == 0 then 0 else TimesBefore(points, n - 1, t) + if points[n-1].time == t then 1 else 0
  }

  lemma {:induction false} NoneBefore(points: seq<Point>, n: nat, t: real)
    requires n <= |points| && forall i :: 0 <= i < n ==> points[i].time < t
    ensures TimesBefore(points, n, t) == 0
  {
    if n > 0 { NoneBefore(points, n - 1, t); }
  }

  /** In a sorted series all earlier samples of the same time directly precede a sample. */
  lemma {:induction false} OccurrenceCounts(points: seq<Point>, i: nat)
    requires Sorted(points) && i < |points|
    ensures Occurrence(points, i) == TimesBefore(points, i, points[i].time)
  {
    if i > 0 {
      if points[i-1].time == points[i].time { OccurrenceCounts(points, i - 1); } else { NoneBefore(points, i, points[i].time); }
    }
  }

  /** What the table says about one signal: its cells from top to bottom. */
  function Project(rows: seq<Row>, signal: nat): seq<Point> {
    if rows == [] then []
    else
      var r := rows[|rows|-1];
      Project(rows[..|rows|-1], signal) + if signal in r.values then [Point(r.stamp, r.values[signal])] else []
  }

  lemma ProjectNext(rows: seq<Row>, r: Row, signal: nat)
    ensures Project(rows + [r], signal)
         == Project(rows, signal) + if signal in r.values then [Point(r.stamp, r.values[signal])] else []
  {
    assert (rows + [r])[..|rows|] == rows;
  }

  /** `next[s]` samples of signal `s` have been popped. */
  ghost predicate InBounds(series: Series, next: seq<nat>) {
    |next| == |series| && forall s :: 0 <= s < |series| ==> next[s] <= |series[s]|
  }

  /** Samples not yet merged. */
  ghost function Left(series: Series, next: seq<nat>): nat
    requires InBounds(series, next)
  {
    if series == [] then 0
    else Left(series[..|series|-1], next[..|next|-1]) + |series[|series|-1]| - next[|next|-1]
  }

  lemma {:induction false} LeftDrops(series: Series, next: seq<nat>, s: nat)
    requires InBounds(series, next) && s < |series|
    requires next[s] < |series[s]|
    ensures InBounds(series, next[s := next[s] + 1])
    ensures Left(series, next[s := next[s] + 1]) == Left(series, next) - 1
  {
    var n := |series| - 1;
    if s < n {
      LeftDrops(series[..n], next[..n], s);
      assert next[s := next[s] + 1][..n] == next[..n][s := next[s] + 1];
    } else {
      assert next[s := next[s] + 1][..n] == next[..n];
    }
  }

  /** The heap holds exactly the next sample of every unfinished signal. */
  ghost predicate Heads(series: Series, next: seq<nat>, pending: set<Pending>) {
    && InBounds(series, next)
    && (forall p :: p in pending ==>
      p.signal < |series| && p.index == next[p.signal] < |series[p.signal]| && p.key == KeyOf(series[p.signal], p.index))
    && (forall s :: 0 <= s < |series| ==> Queued(series, next, pending, s))
  }

  ghost predicate Queued(series: Series, next: seq<nat>, pending: set<Pending>, s: nat)
    requires InBounds(series, next) && s < |series|
  {
    next[s] < |series[s]| ==> Pending(KeyOf(series[s], next[s]), s, next[s]) in pending
  }

  lemma HeadsStart(series: Series, next: seq<nat>, pending: set<Pending>)
    requires |next| == |series| && forall s :: 0 <= s < |series| ==> next[s] == 0
    requires pending == set s | 0 <= s < |series| && |series[s]| > 0 :: Pending(Key(series[s][0].time, 0), s, 0)
    ensures Heads(series, next, pending)
  {}

  lemma HeadsEnd(series: Series, next: seq<nat>, rows: seq<Row>)
    requires Heads(series, next, {}) && Merged(series, next, rows)
    ensures forall s :: 0 <= s < |series| ==> Project(rows, s) == series[s]
  {
    forall s | 0 <= s < |series| ensures Project(rows, s) == series[s] {
      assert Queued(series, next, {}, s);
    }
  }

  /** After popping `p`, the follower of its sample takes its place if there is one. */
  function Follow(series: Series, p: Pending): set<Pending>
    requires p.signal < |series| && p.index < |series[p.signal]|
  {
    var points := series[p.signal];
    if p.index + 1 < |points| then
      var stamp := points[p.index + 1].time;
      {Pending(Key(stamp, if stamp == p.key.stamp then p.key.occurrence + 1 else 0), p.signal, p.index + 1)}
    else {}
  }

  lemma PopKeepsHeads(series: Series, next: seq<nat>, pending: set<Pending>, p: Pending)
    requires Heads(series, next, pending) && p in pending && forall s :: 0 <= s < |series| ==> Sorted(series[s])
    ensures p.signal < |series| && p.index == next[p.signal] < |series[p.signal]|
    ensures p.key == KeyOf(series[p.signal], p.index)
    ensures Heads(series, next[p.signal := p.index + 1], pending - {p} + Follow(series, p))
    ensures forall q :: q in Follow(series, p) ==> q.signal == p.signal
    ensures forall q :: q in pending && q.signal == p.signal ==> q == p
    ensures forall q :: q in Follow(series, p) ==> Less(p.key, q.key)
  {
    var after, rest := next[p.signal := p.index + 1], pending - {p} + Follow(series, p);
    forall s | 0 <= s < |series| ensures Queued(series, after, rest, s) {
      assert Queued(series, next, pending, s);
    }
  }

  /** `heapq.heappop`: the least entry by (time, occurrence, signal). */
  method PopLeast(pending: set<Pending>) returns (p: Pending, rest: set<Pending>)
    requires pending != {}
    ensures p in pending && rest == pending - {p}
    ensures forall q :: q in pending ==> Before(p, q)
  {
    p :| p in pending;
    var unseen := pending - {p};
    while unseen != {}
      invariant p in pending && unseen <= pending
      invariant forall q :: q in pending && q !in unseen ==> Before(p, q)
      decreases unseen
    {
      var q :| q in unseen;
      if !Before(p, q) { p := q; }
      unseen := unseen - {q};
    }
    rest := pending - {p};
  }

  method PeekKey(pending: set<Pending>) returns (key: Key)
    requires pending != {}
    ensures exists p :: p in pending && p.key == key
    ensures forall q :: q in pending ==> q.key == key || Less(key, q.key)
  {
    var p, rest := PopLeast(pending);
    key := p.key;
  }

  ghost predicate KeysIncrease(keys: seq<Key>) { forall i, j :: 0 <= i < j < |keys| ==> Less(keys[i], keys[j]) }

  /** A row holds, of each signal, only the sample that carries the row's key. */
  ghost predicate CellsMatch(series: Series, key: Key, row: Row) {
    && row.stamp == key.stamp
    && forall s :: s in row.values ==> s < |series| && HasSample(series[s], key, row.values[s])
  }

  ghost predicate HasSample(points: seq<Point>, key: Key, value: real) {
    exists i :: 0 <= i < |points| && KeyOf(points, i) == key && points[i].value == value
  }

  /** The cell of signal `s` in row `r` is the signal's sample `i`: `i` cells stand above it. */
  ghost predicate Stands(rows: seq<Row>, r: nat, s: nat, i: nat) {
    r < |rows| && s in rows[r].values && |Project(rows[..r], s)| == i
  }

  /** The sample that comes next for signal `s` carries the key. */
  ghost predicate Carries(series: Series, s: nat, i: nat, key: Key) {
    s < |series| && i < |series[s]| && KeyOf(series[s], i) == key
  }

  /** Every cell is the sample whose turn it is, and that sample carries the key of the row. */
  ghost predicate Placed(series: Series, keys: seq<Key>, rows: seq<Row>)
    requires |keys| == |rows|
  {
    forall r: nat, s: nat, i: nat :: Stands(rows, r, s, i) ==> Carries(series, s, i, keys[r])
  }

  lemma NothingPlaced(series: Series)
    ensures Placed(series, [], [])
  {}

  lemma PlacedNext(series: Series, keys: seq<Key>, rows: seq<Row>, key: Key, row: Row, next: seq<nat>)
    requires |keys| == |rows| && Placed(series, keys, rows) && InBounds(series, next) && Merged(series, next, rows)
    requires forall s :: s in row.values ==> s < |series| && Carries(series, s, next[s], key)
    ensures Placed(series, keys + [key], rows + [row])
  {
    hide KeyOf;
    forall r: nat, s: nat, i: nat | Stands(rows + [row], r, s, i) ensures Carries(series, s, i, (keys + [key])[r]) {
      assert (rows + [row])[..r] == rows[..r];
      if r < |rows| {
        assert Stands(rows, r, s, i);
      } else {
        assert rows[..r] == rows;
      }
    }
  }

  /** Every sample of a complete table stands in some row. */
  lemma {:induction false} StandsSomewhere(rows: seq<Row>, s: nat, i: nat) returns (r: nat)
    requires i < |Project(rows, s)|
    ensures Stands(rows, r, s, i)
  {
    var n := |rows| - 1;
    if i < |Project(rows[..n], s)| {
      r := StandsSomewhere(rows[..n], s, i);
      assert rows[..n][..r] == rows[..r];
    } else {
      r := n;
    }
  }

  /** A sample stands in one row only. */
  lemma {:induction false} StandsOnce(rows: seq<Row>, s: nat, i: nat, q: nat, r: nat)
    requires Stands(rows, q, s, i) && Stands(rows, r, s, i)
    ensures q == r
  {
    if q < r { CellsAbove(rows, s, q, r); }
    if r < q { CellsAbove(rows, s, r, q); }
  }

  lemma {:induction false} CellsAbove(rows: seq<Row>, s: nat, q: nat, r: nat)
    requires q < r <= |rows| && s in rows[q].values
    ensures |Project(rows[..q], s)| < |Project(rows[..r], s)|
    decreases r
  {
    assert rows[..r][..r-1] == rows[..r-1];
    if q < r - 1 { CellsAbove(rows, s, q, r - 1); }
  }

  /** Two samples stand in the same row exactly if their times are equal and equally many samples
      of that time precede each in its own signal. */
  ghost predicate SameTimesMeet(series: Series, rows: seq<Row>) {
    forall s, i, t, j :: 0 <= s < |series| && 0 <= i < |series[s]| && 0 <= t < |series| && 0 <= j < |series[t]| ==>
      (Meet(rows, s, i, t, j) <==> SameTurn(series[s], i, series[t], j))
  }

  ghost predicate Meet(rows: seq<Row>, s: nat, i: nat, t: nat, j: nat) {
    exists r: nat :: Stands(rows, r, s, i) && Stands(rows, r, t, j)
  }

  predicate SameTurn(a: seq<Point>, i: nat, b: seq<Point>, j: nat)
    requires i < |a| && j < |b|
  {
    a[i].time == b[j].time && TimesBefore(a, i, a[i].time) == TimesBefore(b, j, b[j].time)
  }

  lemma PlacedMeet(series: Series, keys: seq<Key>, rows: seq<Row>)
    requires |keys| == |rows| && KeysIncrease(keys) && Placed(series, keys, rows)
    requires forall s :: 0 <= s < |series| ==> Sorted(series[s]) && Project(rows, s) == series[s]
    ensures SameTimesMeet(series, rows)
  {
    hide Project, Occurrence, TimesBefore, Sorted;
    forall s, i, t, j | 0 <= s < |series| && 0 <= i < |series[s]| && 0 <= t < |series| && 0 <= j < |series[t]|
      ensures Meet(rows, s, i, t, j) <==> SameTurn(series[s], i, series[t], j)
    {
      OccurrenceCounts(series[s], i);
      OccurrenceCounts(series[t], j);
      var q := StandsSomewhere(rows, s, i);
      var r := StandsSomewhere(rows, t, j);
      assert Carries(series, s, i, keys[q]) && Carries(series, t, j, keys[r]);
      if SameTurn(series[s], i, series[t], j) { assert q == r; }
      if Meet(rows, s, i, t, j) {
        var both: nat :| Stands(rows, both, s, i) && Stands(rows, both, t, j);
        StandsOnce(rows, s, i, both, q);
        StandsOnce(rows, t, j, both, r);
      }
    }
  }

  ghost predicate Merged(series: Series, next: seq<nat>, rows: seq<Row>)
    requires InBounds(series, next)
  {
    forall s :: 0 <= s < |series| ==> Project(rows, s) == series[s][..next[s]]
  }

  /** Signals with a cell in the row being built are one sample ahead of the finished rows. */
  ghost predicate Filling(series: Series, next: seq<nat>, rows: seq<Row>, row: Row)
    requires InBounds(series, next)
  {
    forall s :: 0 <= s < |series| ==>
      Project(rows, s) + (if s in row.values then [Point(row.stamp, row.values[s])] else []) == series[s][..next[s]]
  }

  lemma NothingMerged(series: Series, next: seq<nat>)
    requires |next| == |series| && forall s :: 0 <= s < |series| ==> next[s] == 0
    ensures Merged(series, next, [])
  {}

  lemma MergedStarts(series: Series, next: seq<nat>, rows: seq<Row>, stamp: real)
    requires InBounds(series, next)
    requires Merged(series, next, rows)
    ensures Filling(series, next, rows, Row(stamp, map[]))
  {}

  lemma RowCompletes(series: Series, next: seq<nat>, rows: seq<Row>, row: Row)
    requires InBounds(series, next)
    requires Filling(series, next, rows, row)
    ensures Merged(series, next, rows + [row])
  {
    forall s | 0 <= s < |series| ensures Project(rows + [row], s) == series[s][..next[s]] {
      ProjectNext(rows, row, s);
    }
  }

  lemma CellFills(series: Series, next: seq<nat>, rows: seq<Row>, row: Row, p: Pending)
    requires InBounds(series, next)
    requires p.signal < |series| && p.index == next[p.signal] < |series[p.signal]|
    requires p.key == KeyOf(series[p.signal], p.index) && row.stamp == p.key.stamp && p.signal !in row.values
    requires Filling(series, next, rows, row)
    ensures Filling(series, next[p.signal := p.index + 1], rows,
      Row(row.stamp, row.values[p.signal := series[p.signal][p.index].value]))
  {
    hide Project;
    var points := series[p.signal];
    assert points[..p.index + 1] == points[..p.index] + [points[p.index]];
    assert Project(rows, p.signal) + [] == Project(rows, p.signal);
  }

  /** The inner loop: pop everything that carries `key` into one row. */
  method MergeKey(series: Series, key: Key, heap: set<Pending>, ghost start: seq<nat>, ghost rows: seq<Row>)
    returns (values: map<nat, real>, pending: set<Pending>, ghost next: seq<nat>)
    requires forall s :: 0 <= s < |series| ==> Sorted(series[s])
    requires InBounds(series, start) && Heads(series, start, heap) && Merged(series, start, rows)
    requires exists p :: p in heap && p.key == key
    requires forall q :: q in heap ==> q.key == key || Less(key, q.key)
    ensures values != map[] && CellsMatch(series, key, Row(key.stamp, values))
    ensures forall s :: s in values ==> s < |series| && Carries(series, s, start[s], key)
    ensures InBounds(series, next) && Heads(series, next, pending) && Filling(series, next, rows, Row(key.stamp, values))
    ensures forall q :: q in pending ==> Less(key, q.key)
    ensures Left(series, next) < Left(series, start)
  {
    hide Project, Left, Filling, Sorted, KeyOf, Heads, Follow;
    values, pending, next := map[], heap, start;
    MergedStarts(series, next, rows, key.stamp);
    while pending != {}
      invariant InBounds(series, next) && Heads(series, next, pending) && Filling(series, next, rows, Row(key.stamp, values))
      invariant CellsMatch(series, key, Row(key.stamp, values))
      invariant forall s :: s in values ==> s < |series| && Carries(series, s, start[s], key)
      invariant forall s :: 0 <= s < |series| && s !in values ==> next[s] == start[s]
      invariant forall q :: q in pending ==> q.key == key || Less(key, q.key)
      invariant forall q :: q in pending && q.signal in values ==> Less(key, q.key)
      invariant values == map[] ==> pending == heap && next == start
      invariant values != map[] ==> Left(series, next) < Left(series, start)
      decreases Left(series, next)
    {
      var p, rest := PopLeast(pending);
      if p.key != key { break; }
      PopKeepsHeads(series, next, pending, p);
      CellFills(series, next, rows, Row(key.stamp, values), p);
      LeftDrops(series, next, p.signal);
      assert HasSample(series[p.signal], key, series[p.signal][p.index].value);
      values := values[p.signal := series[p.signal][p.index].value];
      pending := rest + Follow(series, p);
      next := next[p.signal := p.index + 1];
    }
  }

  /** `_merged_rows`: lossless. Row keys strictly increase, no row is empty, every cell is the
      sample with the row's key, reading back a column gives the original series, and the samples
      of all signals with the same time and the same turn share a row. */
  method MergedRows(series: Series) returns (rows: seq<Row>, ghost keys: seq<Key>)
    requires forall s :: 0 <= s < |series| ==> Sorted(series[s])
    ensures |keys| == |rows| && KeysIncrease(keys)
    ensures forall r :: 0 <= r < |rows| ==> rows[r].values != map[] && CellsMatch(series, keys[r], rows[r])
    ensures forall s :: 0 <= s < |series| ==> Project(rows, s) == series[s]
    ensures SameTimesMeet(series, rows)
  {
    hide CellsMatch, Project, Heads, Merged, Filling, Left, Sorted, Placed, Carries, SameTimesMeet, KeyOf;
    ghost var next: seq<nat> := seq(|series|, _ => 0);
    var pending := set s | 0 <= s < |series| && |series[s]| > 0 :: Pending(Key(series[s][0].time, 0), s, 0);
    rows, keys := [], [];
    HeadsStart(series, next, pending);
    NothingMerged(series, next);
    NothingPlaced(series);
    while pending != {}
      invariant InBounds(series, next) && Heads(series, next, pending) && Merged(series, next, rows)
      invariant |keys| == |rows| && KeysIncrease(keys)
      invariant forall r :: 0 <= r < |rows| ==> rows[r].values != map[] && CellsMatch(series, keys[r], rows[r])
      invariant Placed(series, keys, rows)
      invariant keys != [] ==> forall p :: p in pending ==> Less(keys[|keys|-1], p.key)
      decreases Left(series, next)
    {
      var key := PeekKey(pending);
      ghost var before := next;
      var values;
      values, pending, next := MergeKey(series, key, pending, next, rows);
      RowCompletes(series, next, rows, Row(key.stamp, values));
      PlacedNext(series, keys, rows, key, Row(key.stamp, values), before);
      rows, keys := rows + [Row(key.stamp, values)], keys + [key];
    }
    HeadsEnd(series, next, rows);
    PlacedMeet(series, keys, rows);
  }

  /** `xcp_core_snapshot`: the retained samples of one ring, oldest first. */
  method Snapshot(ring: Ring) returns (points: seq<Point>)
    requires ring.Valid()
    ensures points == ring.Contents()
  {
    hide Staircase, Window, Ring.At;
    ring.SizeIsContents();
    points := [];
    for i := 0 to ring.Size()
      invariant points == ring.Contents()[..i]
    {
      points := points + [ring.At(i)];
    }
  }

  /** What the rings of a core retain: of every signal the last `capacity` samples. */
  ghost function Retained(core: SignalCore.Core): (series: Series)
    reads core
    ensures |series| == |core.hist|
  {
    seq(|core.hist|, s requires 0 <= s < |core.hist| reads core => Last(core.hist[s], core.capacity))
  }

  /** `rows()`: the lossless merge of what is retained. Row keys strictly increase, no row is
      empty, every cell is the retained sample with the row's key, and reading back any column
      gives exactly the last `capacity` samples accepted for that signal since the last clear. */
  method Rows(core: SignalCore.Core) returns (rows: seq<Row>, ghost keys: seq<Key>)
    requires core.Valid()
    ensures |keys| == |rows| && KeysIncrease(keys)
    ensures forall r :: 0 <= r < |rows| ==> rows[r].values != map[] && CellsMatch(Retained(core), keys[r], rows[r])
    ensures forall s :: 0 <= s < |core.hist| ==> Project(rows, s) == Last(core.hist[s], core.capacity)
    ensures SameTimesMeet(Retained(core), rows)
  {
    hide Staircase, Window, Project, KeysIncrease, CellsMatch, SameTimesMeet;
    var series: Series := [];
    for s := 0 to |core.rings|
      invariant |series| == s
      invariant forall k :: 0 <= k < s ==> series[k] == Last(core.hist[k], core.capacity)
    {
      var points := Snapshot(core.rings[s]);
      series := series + [points];
    }
    assert series == Retained(core);
    forall s | 0 <= s < |series| ensures Sorted(series[s]) {
      assert SignalCore.Sorted(core.hist[s]);
    }
    rows, keys := MergedRows(series);
  }
}
