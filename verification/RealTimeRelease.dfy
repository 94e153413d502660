/** The absolute release grid of the real-time runtime and its interval statistics.

    One model thread waits for the next grid point, runs a step, and waits again. Releases that
    were missed are skipped, never queued. What the outside answers is an input, reading by reading
    of a monotone nanosecond clock: sleeps may be interrupted and return early or late, the clock
    may stall, a stop may come at any check, and the answers may end in the middle of the run. */
module RealTimeRelease {
  import opened Common
  import DivMod

  const INT64_MAX: int := 0x7FFF_FFFF_FFFF_FFFF
  const TOLERANCE_NS: int := 50000

  /** `Pending`: the answers ended before the call returned. */
  datatype Result = Released | Stopped | Overflow | SleepError | Pending

  // ----- the pure helpers

  /** `simrt_rt_interval_outlier`. */
  function IntervalOutlier(interval: int, period: int): int {
    var error := interval - period;
    if error < -TOLERANCE_NS then -1 else if error > TOLERANCE_NS then 1 else 0
  }

  /** `simrt_rt_sleep_deadline_ns`: sleep to at most half a millisecond before the release. */
  function SleepDeadline(release: int, spinUs: int): (deadline: int)
    ensures 0 <= spinUs <= 500 && release >= 0 ==> 0 <= deadline <= release && release - deadline <= 500000
  {
    if release < 0 || spinUs < 0 || spinUs > 500 then -1
    else if release > spinUs * 1000 then release - spinUs * 1000 else 0
  }

  /** The grid: `index` periods after the initial release. */
  function Grid(origin: int, index: int, period: int): int { origin + index * period }

  lemma GridSteps(origin: int, index: int, count: int, period: int)
    ensures Grid(origin, index + count, period) == Grid(Grid(origin, index, period), count, period)
    ensures count == 1 ==> Grid(origin, index + count, period) == Grid(origin, index, period) + period
  {}

  /** `simrt_rt_next_future_release`: the new release and how many releases it skips. */
  function NextFutureRelease(scheduled: int, now: int, period: int): Option<(int, nat)> {
    if period <= 0 || scheduled < 0 || now < 0 then None
    else if now >= scheduled then
      var count := (now - scheduled) / period + 1;
      if count > (INT64_MAX - scheduled) / period then None else Some((scheduled + count * period, count))
    else Some((scheduled, 0))
  }

  /** The result is on the grid, in the future, no earlier than scheduled, and the least such point. */
  lemma NextIsLeast(scheduled: int, now: int, period: int, j: nat)
    requires NextFutureRelease(scheduled, now, period).Some?
    ensures var (release, skipped) := NextFutureRelease(scheduled, now, period).value;
      && release == Grid(scheduled, skipped, period)
      && now < release <= INT64_MAX + (if skipped == 0 then scheduled else 0)
      && (skipped > 0 ==> release - period <= now && now >= scheduled)
      && (Grid(scheduled, j, period) > now ==> release <= Grid(scheduled, j, period))
  {
    if now >= scheduled {
      var d := now - scheduled;
      var q := d / period;
      assert d == q * period + d % period;
      assert (q + 1) * period == q * period + period;
      assert (INT64_MAX - scheduled) / period * period <= INT64_MAX - scheduled;
      DivMod.MulMono(q + 1, (INT64_MAX - scheduled) / period, period);
      if j <= q { DivMod.MulMono(j, q, period); } else { DivMod.MulMono(q + 1, j, period); }
    }
  }

  /** It overflows only when the count does not fit before INT64_MAX. */
  lemma NoOverflowInRange(scheduled: int, now: int, period: int)
    requires period > 0 && scheduled >= 0 && now >= 0 && now + period <= INT64_MAX
    ensures NextFutureRelease(scheduled, now, period).Some?
  {
    if now >= scheduled {
      var d := now - scheduled;
      assert (d / period + 1) * period == d / period * period + period;
      DivMod.Unique((d / period + 1) * period, d / period + 1, 0, period);
      DivMod.Mono((d / period + 1) * period, INT64_MAX - scheduled, period);
    }
  }

  // ----- running statistics

  /** Minimum, maximum and total of a series of `samples` values. */
  datatype Stats = Stats(samples: nat, min: int, max: int, total: int)

  const NO_STATS := Stats(0, 0, 0, 0)

  function AddSample(s: Stats, x: int): Stats {
    Stats(s.samples + 1,
      if s.samples == 0 || x < s.min then x else s.min,
      if x > s.max then x else s.max,
      s.total + x)
  }

  ghost predicate Bounded(s: Stats) {
    && s.min * s.samples <= s.total <= s.max * s.samples
    && (s.samples == 0 ==> s == NO_STATS)
    && (s.samples > 0 ==> s.min <= s.max) && 0 <= s.max
  }

  /** The mean lies between the recorded minimum and maximum. */
  lemma AddKeepsBounds(s: Stats, x: int)
    requires Bounded(s) && x >= 0
    ensures Bounded(AddSample(s, x))
    ensures AddSample(s, x).samples == s.samples + 1 && AddSample(s, x).total == s.total + x
  {
    var t := AddSample(s, x);
    MulOrder(t.min, s.min, s.samples);
    MulOrder(s.max, t.max, s.samples);
    assert t.min * t.samples == t.min * s.samples + t.min;
    assert t.max * t.samples == t.max * s.samples + t.max;
  }

  lemma MulOrder(a: int, b: int, n: nat)
    ensures a <= b ==> a * n <= b * n
  {}

  function Early(error: int): nat { if error < -TOLERANCE_NS then 1 else 0 }

  function Late(error: int): nat { if error > TOLERANCE_NS then 1 else 0 }

  /** The error of a step interval is the change of release lateness plus `m` skipped periods, so
      an early outlier needs a late predecessor and a late one a late release or a skipped one. */
  ghost predicate Explained(error: int, before: int, now: int, m: nat, period: int) {
    && error == now - before + m * period
    && (error < -TOLERANCE_NS ==> before > TOLERANCE_NS)
    && (error > TOLERANCE_NS ==> now > TOLERANCE_NS || m > 0)
  }

  lemma ErrorExplained(origin: int, i: int, j: int, period: int, start: int, next: int)
    requires period > 0 && i < j && Grid(origin, i, period) <= start && Grid(origin, j, period) <= next
    ensures Explained(next - start - period, start - Grid(origin, i, period), next - Grid(origin, j, period), j - i - 1, period)
  {
    assert j * period - i * period == (j - i - 1) * period + period;
    DivMod.MulMono(0, j - i - 1, period);
  }

  // ----- a whole run, by its clock readings

  /** One pass of the generated main: the wait is entered, the release is taken, the model step
      begins and ends. */
  datatype Pass = Pass(entry: int, start: int, begin: int, end: int)

  /** How a run ends. The generated main leaves its loop after a step (`Left`) or, told to by the
      background thread, right after a wait (`Broken`); a stop signal is seen when the wait is
      entered or later in the wait. `at` is the reading `finish_step` gets. */
  datatype Ending =
    | Left(at: int)
    | Broken(entry: int, start: int, at: int)
    | StoppedOnEntry(at: int)
    | StoppedWaiting(at: int)

  /** The counters of the loop; while a step is active `release` is its release. */
  datatype Track = Track(next: int, release: int, cycles: nat, skipped: nat, misses: nat)

  /** Whether the active step, if any, missed its deadline when it finished then. */
  function Missed(t: Track, finished: int, period: int): nat {
    if t.cycles > 0 && finished > t.release + period then 1 else 0
  }

  function Finished(t: Track, at: int, period: int): Track { t.(misses := t.misses + Missed(t, at, period)) }

  /** First half of a wait: the step is finished and missed releases are skipped. */
  function Caught(t: Track, entry: int, period: int): Option<Track> {
    var next := NextFutureRelease(t.next, entry, period);
    if next.None? then None
    else Some(Finished(t, entry, period).(next := next.value.0, skipped := t.skipped + next.value.1))
  }

  /** Second half: the release is taken. */
  function Taken(t: Track, period: int): Track { t.(release := t.next, next := t.next + period, cycles := t.cycles + 1) }

  /** The counters after these passes, if no release overflowed. */
  function Play(now: nat, period: int, passes: seq<Pass>): Option<Track> {
    if passes == [] then Some(Track(now + period, 0, 0, 0, 0))
    else
      var before := Play(now, period, passes[..|passes|-1]);
      if before.None? then None
      else
        var caught := Caught(before.value, passes[|passes|-1].entry, period);
        if caught.None? then None else Some(Taken(caught.value, period))
  }

  function LastReading(now: nat, passes: seq<Pass>): int { if passes == [] then now else passes[|passes|-1].end }

  /** The clock never runs back, and no release is taken before it is due. */
  ghost predicate Legal(now: nat, period: int, passes: seq<Pass>) {
    passes == []
    || (var front, last := passes[..|passes|-1], passes[|passes|-1];
      && Legal(now, period, front) && Play(now, period, passes).Some?
      && LastReading(now, front) <= last.entry
      && Play(now, period, passes).value.release <= last.start <= last.begin <= last.end
      && last.entry <= last.start)
  }

  /** The counters at the last return of the wait. */
  function AtLastWait(t: Track, ending: Ending, period: int): Option<Track> {
    if ending.Broken? then
      var caught := Caught(t, ending.entry, period);
      if caught.None? then None else Some(Taken(caught.value, period))
    else Some(t)
  }

  /** The counters in the report. */
  function Final(t: Track, ending: Ending, period: int): Option<Track> {
    match ending
    case Left(at) => Some(Finished(t, at, period))
    case StoppedOnEntry(at) => Some(Finished(t, at, period))
    case StoppedWaiting(at) => Caught(t, at, period)
    case Broken(entry, _, at) =>
      var last := AtLastWait(t, ending, period);
      if last.None? then None else Some(Finished(last.value, at, period))
  }

  lemma NextWhenPast(scheduled: int, now: int, period: int)
    requires period > 0 && NextFutureRelease(scheduled, now, period).Some?
    ensures now >= scheduled ==> NextFutureRelease(scheduled, now, period).value.1 > 0
  {}

  ghost predicate OnTrack(t: Track, origin: int, period: int) {
    && 0 <= t.next == Grid(origin, t.cycles + t.skipped, period) && t.misses <= t.skipped
    && (t.cycles > 0 ==> t.release == t.next - period)
  }

  lemma CaughtKeeps(t: Track, entry: int, origin: int, period: int)
    requires period > 0 && OnTrack(t, origin, period) && Caught(t, entry, period).Some?
    ensures
      var c := Caught(t, entry, period).value;
      && c.next == Grid(origin, c.cycles + c.skipped, period) && c.misses <= c.skipped && entry < c.next
      && c.cycles == t.cycles && c.skipped >= t.skipped && OnTrack(Taken(c, period), origin, period)
  {
    hide NextFutureRelease, Grid;
    NextIsLeast(t.next, entry, period, 0);
    NextWhenPast(t.next, entry, period);
    var k := NextFutureRelease(t.next, entry, period).value.1;
    GridSteps(origin, t.cycles + t.skipped, k, period);
    GridSteps(origin, t.cycles + t.skipped + k, 1, period);
  }

  /** After any passes under any timing: every grid point up to the next release is used or
      skipped, and every deadline miss is covered by a skipped release. */
  lemma {:induction false} EveryRun(now: nat, period: int, passes: seq<Pass>)
    requires period > 0 && Legal(now, period, passes)
    ensures Play(now, period, passes).Some?
    ensures
      var t := Play(now, period, passes).value;
      && t.next == Grid(now + period, t.cycles + t.skipped, period)
      && t.cycles == |passes| && t.misses <= t.skipped
    ensures OnTrack(Play(now, period, passes).value, now + period, period)
  {
    if passes != [] {
      hide Caught, Taken, Grid;
      var front := passes[..|passes|-1];
      EveryRun(now, period, front);
      CaughtKeeps(Play(now, period, front).value, passes[|passes|-1].entry, now + period, period);
      TakenCounts(Caught(Play(now, period, front).value, passes[|passes|-1].entry, period).value, period);
    }
  }

  lemma TakenCounts(t: Track, period: int)
    ensures Taken(t, period).cycles == t.cycles + 1
  {}

  /** The report's deadline misses are covered by its skipped releases exactly when the last
      active step ended by its next grid point or a skip was left over; otherwise they are one
      more. A stop that is seen after the skip is always covered. */
  lemma {:induction false} MissesIff(now: nat, period: int, passes: seq<Pass>, ending: Ending)
    requires period > 0 && Legal(now, period, passes)
    requires Play(now, period, passes).Some? && Final(Play(now, period, passes).value, ending, period).Some?
    ensures AtLastWait(Play(now, period, passes).value, ending, period).Some?
    ensures
      var w := AtLastWait(Play(now, period, passes).value, ending, period).value;
      var f := Final(Play(now, period, passes).value, ending, period).value;
      && (f.misses <= f.skipped <==> w.cycles == 0 || ending.at <= w.release + period || w.misses < f.skipped)
      && f.misses <= f.skipped + 1
      && (ending.StoppedWaiting? ==> f.misses <= f.skipped)
  {
    hide Grid, NextFutureRelease;
    EveryRun(now, period, passes);
    var t := Play(now, period, passes).value;
    if ending.Broken? { CaughtKeeps(t, ending.entry, now + period, period); }
    if ending.StoppedWaiting? { CaughtKeeps(t, ending.at, now + period, period); }
  }

  /** A run of one pass that is entered before the first release. */
  lemma OnePass(now: nat, period: int, pass: Pass)
    requires NextFutureRelease(now + period, pass.entry, period) == Some((now + period, 0))
    requires now <= pass.entry && now + period <= pass.start <= pass.begin <= pass.end && pass.entry <= pass.start
    ensures Play(now, period, [pass]) == Some(Track(now + period + period, now + period, 1, 0, 0))
    ensures Legal(now, period, [pass])
  {
    hide NextFutureRelease;
    var passes := [pass];
    assert passes[..|passes|-1] == [];
    assert Play(now, period, passes[..|passes|-1]) == Some(Track(now + period, 0, 0, 0, 0));
  }

  /** With any period: a run of one step, taken on time, that ends one nanosecond late and is the
      last, by itself or because a stop signal came: one deadline miss, no skipped release. */
  lemma MissWithoutSkip(now: nat, period: int) returns (pass: Pass)
    requires period > 0
    ensures pass == Pass(now, now + period, now + period, now + period + period + 1)
    ensures Legal(now, period, [pass]) && Play(now, period, [pass]).Some?
    ensures forall ending ::
      ending == Left(pass.end) || ending == StoppedOnEntry(pass.end) ==>
        var f := Final(Play(now, period, [pass]).value, ending, period).value;
        f.misses == 1 && f.skipped == 0
  {
    pass := Pass(now, now + period, now + period, now + period + period + 1);
    OnePass(now, period, pass);
    hide Play, Legal, NextFutureRelease;
  }

  // ----- the counters of a run, without its bookkeeping

  /** `r` is the first grid point from `floor` on that lies after `entry`; `floor` is on the grid. */
  ghost predicate IsNext(r: int, floor: int, entry: int, period: int) {
    floor <= r && entry < r && (r > floor ==> r - period <= entry) && exists k: nat :: r == Grid(floor, k, period)
  }

  lemma NextUnique(a: int, b: int, floor: int, entry: int, period: int)
    requires period > 0 && IsNext(a, floor, entry, period) && IsNext(b, floor, entry, period)
    ensures a == b
  {
    var j: nat :| a == Grid(floor, j, period);
    var k: nat :| b == Grid(floor, k, period);
    assert (j - k) * period == j * period - k * period;
    DivMod.SmallMultiple(j - k, period);
  }

  lemma FutureIsNext(scheduled: int, now: int, period: int)
    requires NextFutureRelease(scheduled, now, period).Some?
    ensures IsNext(NextFutureRelease(scheduled, now, period).value.0, scheduled, now, period)
  {
    NextIsLeast(scheduled, now, period, 0);
    hide NextFutureRelease;
    GridFrom(scheduled, NextFutureRelease(scheduled, now, period).value.1, period);
  }

  lemma GridFrom(floor: int, k: nat, period: int)
    requires period > 0
    ensures floor <= Grid(floor, k, period)
  {
    DivMod.MulMono(0, k, period);
  }

  /** The first grid point that is still to be released. */
  function Floor(now: nat, period: int, releases: seq<int>): int {
    if releases == [] then now + period else releases[|releases|-1] + period
  }

  /** The releases of waits that were entered at these times. */
  ghost predicate ReleasesAre(now: nat, period: int, entries: seq<int>, releases: seq<int>) {
    |releases| == |entries|
    && (entries == []
      || (var front, last := releases[..|releases|-1], |entries| - 1;
        && ReleasesAre(now, period, entries[..last], front)
        && IsNext(releases[last], Floor(now, period, front), entries[last], period)))
  }

  /** How many steps were still active a period after their release when the next wait was entered. */
  function Overran(entries: seq<int>, releases: seq<int>, period: int): nat
    requires |releases| == |entries|
  {
    var last := |entries| - 1;
    if last < 1 then 0
    else Overran(entries[..last], releases[..last], period) + if entries[last] > releases[last-1] + period then 1 else 0
  }

  function Entries(passes: seq<Pass>): seq<int> { seq(|passes|, i requires 0 <= i < |passes| => passes[i].entry) }

  /** The waits that took a release, the last one perhaps without a step. */
  function AllEntries(passes: seq<Pass>, ending: Ending): seq<int> {
    Entries(passes) + if ending.Broken? then [ending.entry] else []
  }

  /** The counters after these waits, before anything happens to the last step. */
  ghost predicate CountersAfter(t: Track, now: nat, period: int, entries: seq<int>, releases: seq<int>)
    requires |releases| == |entries|
  {
    && t.cycles == |entries| && t.misses == Overran(entries, releases, period) && t.next == Floor(now, period, releases)
    && (entries != [] ==> t.release == releases[|releases|-1])
    && OnTrack(t, now + period, period)
  }

  /** A wait entered at `entry` finishes the step before it and takes its own release. */
  lemma WaitCounts(t: Track, now: nat, period: int, entries: seq<int>, releases: seq<int>, entry: int, release: int)
    requires period > 0 && |releases| == |entries| && CountersAfter(t, now, period, entries, releases)
    requires Caught(t, entry, period).Some? && IsNext(release, Floor(now, period, releases), entry, period)
    ensures CountersAfter(Taken(Caught(t, entry, period).value, period), now, period, entries + [entry], releases + [release])
  {
    FutureIsNext(t.next, entry, period);
    NextUnique(NextFutureRelease(t.next, entry, period).value.0, release, t.next, entry, period);
    CaughtKeeps(t, entry, now + period, period);
    hide NextFutureRelease, Grid;
    assert (entries + [entry])[..|entries|] == entries && (releases + [release])[..|releases|] == releases;
  }

  /** After any legal passes: the releases are the least grid points still ahead, a miss was counted
      for every step that was still active a period after its release when the next wait was
      entered, and for no other. */
  lemma {:induction false} MissesCounted(now: nat, period: int, passes: seq<Pass>, releases: seq<int>)
    requires period > 0 && Legal(now, period, passes) && Play(now, period, passes).Some?
    requires ReleasesAre(now, period, Entries(passes), releases)
    ensures CountersAfter(Play(now, period, passes).value, now, period, Entries(passes), releases)
  {
    if passes != [] {
      hide Caught, Taken, Grid, IsNext, CountersAfter;
      var n := |passes| - 1;
      var front := passes[..n];
      assert Entries(passes)[..n] == Entries(front);
      MissesCounted(now, period, front, releases[..n]);
      WaitCounts(Play(now, period, front).value, now, period, Entries(front), releases[..n], passes[n].entry, releases[n]);
      assert Entries(front) + [passes[n].entry] == Entries(passes) && releases[..n] + [releases[n]] == releases;
    }
  }

  lemma {:induction false} ReleasesUnique(now: nat, period: int, entries: seq<int>, a: seq<int>, b: seq<int>)
    requires period > 0 && ReleasesAre(now, period, entries, a) && ReleasesAre(now, period, entries, b)
    ensures a == b
  {
    if entries != [] {
      hide IsNext;
      var n := |entries| - 1;
      ReleasesUnique(now, period, entries[..n], a[..n], b[..n]);
      NextUnique(a[n], b[n], Floor(now, period, a[..n]), entries[n], period);
      assert a == a[..n] + [a[n]] && b == b[..n] + [b[n]];
    }
  }

  /** Every legal run has releases; `ReleasesUnique` says that it has no others. */
  lemma {:induction false} ReleasesExist(now: nat, period: int, passes: seq<Pass>) returns (releases: seq<int>)
    requires period > 0 && Legal(now, period, passes) && Play(now, period, passes).Some?
    ensures ReleasesAre(now, period, Entries(passes), releases)
  {
    if passes == [] {
      releases := [];
    } else {
      hide Caught, Taken, Grid, IsNext;
      var n := |passes| - 1;
      var front := passes[..n];
      assert Entries(passes)[..n] == Entries(front);
      var before := ReleasesExist(now, period, front);
      var release := Play(now, period, passes).value.release;
      ReleaseIsNext(now, period, passes, before);
      releases := before + [release];
      assert releases[..n] == before;
    }
  }

  lemma ReleaseIsNext(now: nat, period: int, passes: seq<Pass>, before: seq<int>)
    requires period > 0 && Legal(now, period, passes) && Play(now, period, passes).Some? && passes != []
    requires ReleasesAre(now, period, Entries(passes[..|passes|-1]), before)
    ensures IsNext(Play(now, period, passes).value.release, Floor(now, period, before), passes[|passes|-1].entry, period)
  {
    hide Grid, IsNext;
    var front := passes[..|passes|-1];
    MissesCounted(now, period, front, before);
    FutureIsNext(Play(now, period, front).value.next, passes[|passes|-1].entry, period);
    hide NextFutureRelease;
  }

  /** What the report must say: a miss for every overrun step, the last one included if it was still
      active a period after its release at the ending's reading; the cycles; and the skipped releases
      that leave the next one on the grid. */
  ghost predicate CountersAre(f: Track, now: nat, period: int, entries: seq<int>, releases: seq<int>, ending: Ending)
  {
    && f.cycles == |entries| == |releases| && (entries != [] ==> f.release == releases[|releases|-1])
    && f.misses == Overran(entries, releases, period) + (if entries != [] && ending.at > releases[|releases|-1] + period then 1 else 0)
    && f.next == Grid(now + period, f.cycles + f.skipped, period)
    && (if ending.StoppedWaiting? then IsNext(f.next, Floor(now, period, releases), ending.at, period)
        else f.next == Floor(now, period, releases))
  }

  /** The counters are those of the releases that the entries of the waits determine. */
  ghost predicate WellCounted(f: Track, now: nat, period: int, passes: seq<Pass>, ending: Ending) {
    forall releases :: ReleasesAre(now, period, AllEntries(passes, ending), releases) ==>
      CountersAre(f, now, period, AllEntries(passes, ending), releases, ending)
  }

  lemma ReportWellCounted(now: nat, period: int, passes: seq<Pass>, ending: Ending, f: Track)
    requires period > 0 && Legal(now, period, passes) && Play(now, period, passes).Some?
    requires Final(Play(now, period, passes).value, ending, period) == Some(f)
    ensures WellCounted(f, now, period, passes, ending)
  {
    hide Final, Play, Legal, ReleasesAre, CountersAre;
    forall releases | ReleasesAre(now, period, AllEntries(passes, ending), releases)
      ensures CountersAre(f, now, period, AllEntries(passes, ending), releases, ending)
    {
      ReportCounts(now, period, passes, ending, releases);
    }
  }

  lemma ReportCounts(now: nat, period: int, passes: seq<Pass>, ending: Ending, releases: seq<int>)
    requires period > 0 && Legal(now, period, passes) && Play(now, period, passes).Some?
    requires Final(Play(now, period, passes).value, ending, period).Some?
    requires ReleasesAre(now, period, AllEntries(passes, ending), releases)
    ensures CountersAre(Final(Play(now, period, passes).value, ending, period).value, now, period, AllEntries(passes, ending), releases, ending)
  {
    var t, entries := Play(now, period, passes).value, AllEntries(passes, ending);
    if ending.Broken? {
      BrokenCounts(now, period, passes, ending, releases);
    } else {
      assert entries == Entries(passes);
      MissesCounted(now, period, passes, releases);
      if ending.StoppedWaiting? {
        FutureIsNext(t.next, ending.at, period);
        CaughtKeeps(t, ending.at, now + period, period);
        hide NextFutureRelease;
      }
      hide Play, Legal, ReleasesAre, Grid, IsNext;
    }
  }

  lemma BrokenCounts(now: nat, period: int, passes: seq<Pass>, ending: Ending, releases: seq<int>)
    requires period > 0 && Legal(now, period, passes) && Play(now, period, passes).Some? && ending.Broken?
    requires Final(Play(now, period, passes).value, ending, period).Some?
    requires ReleasesAre(now, period, AllEntries(passes, ending), releases)
    ensures CountersAre(Final(Play(now, period, passes).value, ending, period).value, now, period, AllEntries(passes, ending), releases, ending)
  {
    var n := |passes|;
    assert AllEntries(passes, ending)[..n] == Entries(passes);
    MissesCounted(now, period, passes, releases[..n]);
    hide Grid, IsNext, Play, Legal, Caught, Taken;
    WaitCounts(Play(now, period, passes).value, now, period, Entries(passes), releases[..n], ending.entry, releases[n]);
    assert releases[..n] + [releases[n]] == releases;
    hide ReleasesAre;
  }

  // ----- statistics of a run

  function Starts(passes: seq<Pass>): seq<int> { seq(|passes|, i requires 0 <= i < |passes| => passes[i].start) }

  function Begins(passes: seq<Pass>): seq<int> { seq(|passes|, i requires 0 <= i < |passes| => passes[i].begin) }

  /** The distances of neighbours. */
  function Intervals(times: seq<int>): Stats {
    if |times| < 2 then NO_STATS
    else AddSample(Intervals(times[..|times|-1]), times[|times|-1] - times[|times|-2])
  }

  /** How many intervals are shorter than the period by more than the tolerance. */
  function Earlies(times: seq<int>, period: int): nat {
    if |times| < 2 then 0
    else Earlies(times[..|times|-1], period) + Early(times[|times|-1] - times[|times|-2] - period)
  }

  /** How many intervals are longer than the period by more than the tolerance. */
  function Lates(times: seq<int>, period: int): nat {
    if |times| < 2 then 0
    else Lates(times[..|times|-1], period) + Late(times[|times|-1] - times[|times|-2] - period)
  }

  function Executions(passes: seq<Pass>): Stats {
    if passes == [] then NO_STATS
    else AddSample(Executions(passes[..|passes|-1]), passes[|passes|-1].end - passes[|passes|-1].begin)
  }

  function Sum(xs: seq<int>): int { if xs == [] then 0 else Sum(xs[..|xs|-1]) + xs[|xs|-1] }

  /** The distances of neighbouring times. */
  function Distances(times: seq<int>): seq<int> {
    if |times| < 2 then [] else seq(|times| - 1, i requires 0 <= i < |times| - 1 => times[i+1] - times[i])
  }

  function Durations(passes: seq<Pass>): seq<int> {
    seq(|passes|, i requires 0 <= i < |passes| => passes[i].end - passes[i].begin)
  }

  /** The statistics are those of these values. */
  ghost predicate Describes(s: Stats, xs: seq<int>) {
    && s.samples == |xs| && s.total == Sum(xs)
    && if xs == [] then s == NO_STATS else s.min in xs && s.max in xs && forall x :: x in xs ==> s.min <= x <= s.max
  }

  lemma AddDescribes(s: Stats, xs: seq<int>, x: int)
    requires Describes(s, xs) && x >= 0
    ensures Describes(AddSample(s, x), xs + [x])
  {
    assert (xs + [x])[..|xs|] == xs;
    assert x in xs + [x] && forall y :: y in xs + [x] <==> y in xs || y == x;
  }

  /** Count, minimum, maximum and total of the intervals are exact. */
  lemma {:induction false} IntervalsDescribe(times: seq<int>)
    requires NeverBack(times)
    ensures Describes(Intervals(times), Distances(times))
  {
    hide Describes, AddSample, Intervals, Distances, NeverBack;
    if |times| < 2 {
      NoDistances(times);
    } else {
      var front, last := times[..|times|-1], times[|times|-1] - times[|times|-2];
      NeverBackFront(times);
      IntervalsDescribe(front);
      AddDescribes(Intervals(front), Distances(front), last);
      DistancesNext(times);
      IntervalsLast(times);
    }
  }

  lemma NoDistances(times: seq<int>)
    requires |times| < 2
    ensures Describes(Intervals(times), Distances(times))
  {}

  lemma NeverBackFront(times: seq<int>)
    requires NeverBack(times) && |times| >= 2
    ensures NeverBack(times[..|times|-1]) && times[|times|-2] <= times[|times|-1]
  {}

  lemma IntervalsLast(times: seq<int>)
    requires |times| >= 2
    ensures Intervals(times) == AddSample(Intervals(times[..|times|-1]), times[|times|-1] - times[|times|-2])
  {
    hide AddSample;
  }

  lemma DistancesNext(times: seq<int>)
    requires |times| >= 2
    ensures Distances(times) == Distances(times[..|times|-1]) + [times[|times|-1] - times[|times|-2]]
  {
    var front := times[..|times|-1];
    var all, most := Distances(times), Distances(front) + [times[|times|-1] - times[|times|-2]];
    assert |all| == |times| - 1 == |most|;
    forall i | 0 <= i < |all| ensures all[i] == most[i] {
      assert i < |front| - 1 ==> front[i] == times[i] && front[i+1] == times[i+1];
    }
  }

  lemma NothingDescribed()
    ensures Describes(NO_STATS, [])
  {}

  lemma {:induction false} ExecutionsDescribe(passes: seq<Pass>)
    requires forall i :: 0 <= i < |passes| ==> passes[i].begin <= passes[i].end
    ensures Describes(Executions(passes), Durations(passes))
  {
    if passes != [] {
      hide Describes, AddSample, Durations;
      var front, last := passes[..|passes|-1], passes[|passes|-1];
      ExecutionsDescribe(front);
      AddDescribes(Executions(front), Durations(front), last.end - last.begin);
      DurationsNext(passes);
    } else {
      NothingDescribed();
    }
  }

  lemma DurationsNext(passes: seq<Pass>)
    requires passes != []
    ensures var last := passes[|passes|-1]; Durations(passes) == Durations(passes[..|passes|-1]) + [last.end - last.begin]
  {}

  /** The intervals that differ from the period by more than 50 us in one direction. */
  function OutlierAt(times: seq<int>, period: int, early: bool): set<int> {
    set i | 0 < i < |times| && IsOutlier(times, i, period, early)
  }

  predicate IsOutlier(times: seq<int>, i: int, period: int, early: bool)
    requires 0 < i < |times|
  {
    if early then times[i] - times[i-1] < period - 50000 else times[i] - times[i-1] > period + 50000
  }

  /** The outlier counts are the numbers of such intervals. */
  lemma {:induction false} OutliersCounted(times: seq<int>, period: int)
    ensures Earlies(times, period) == |OutlierAt(times, period, true)|
    ensures Lates(times, period) == |OutlierAt(times, period, false)|
  {
    if |times| >= 2 {
      var n := |times| - 1;
      OutliersCounted(times[..n], period);
      OutlierNext(times, period, true);
      OutlierNext(times, period, false);
      hide OutlierAt;
    } else {
      assert OutlierAt(times, period, true) == {} && OutlierAt(times, period, false) == {};
    }
  }

  lemma OutlierNext(times: seq<int>, period: int, early: bool)
    requires |times| >= 2
    ensures
      var n := |times| - 1;
      |OutlierAt(times, period, early)| == |OutlierAt(times[..n], period, early)| + if IsOutlier(times, n, period, early) then 1 else 0
  {
    var n := |times| - 1;
    assert n !in OutlierAt(times[..n], period, early);
    assert OutlierAt(times, period, early) == OutlierAt(times[..n], period, early) + if IsOutlier(times, n, period, early) then {n} else {};
  }

  /** How many steps began more than the tolerance after their release. */
  function Behind(now: nat, period: int, passes: seq<Pass>): nat
    requires Play(now, period, passes).Some?
  {
    if passes == [] then 0
    else
      var late := passes[|passes|-1].begin - Play(now, period, passes).value.release > TOLERANCE_NS;
      Behind(now, period, passes[..|passes|-1]) + if late then 1 else 0
  }

  /** The outlier counts of a run: every interval that is too short betrays an earlier step that
      began late, and every one that is too long a step that begins late or a skipped release. */
  lemma {:induction false} OutliersBounded(now: nat, period: int, passes: seq<Pass>)
    requires period > 0 && Legal(now, period, passes) && Play(now, period, passes).Some?
    ensures passes != [] ==>
      var front := passes[..|passes|-1];
      Play(now, period, front).Some? && Earlies(Begins(passes), period) <= Behind(now, period, front)
    ensures Lates(Begins(passes), period) <= Behind(now, period, passes) + Play(now, period, passes).value.skipped
  {
    if |passes| > 1 {
      hide Grid, Caught, Taken, Early, Late, Legal;
      var front := passes[..|passes|-1];
      OutliersBounded(now, period, front);
      assert Begins(passes)[..|passes|-1] == Begins(front);
      OneInterval(now, period, passes);
    }
  }

  /** The newest interval. */
  lemma OneInterval(now: nat, period: int, passes: seq<Pass>)
    requires period > 0 && Legal(now, period, passes) && Play(now, period, passes).Some? && |passes| > 1
    ensures
      var front := passes[..|passes|-1];
      && Legal(now, period, front) && Play(now, period, front).Some?
      && var s, t := Play(now, period, front).value, Play(now, period, passes).value;
      IntervalOk(front[|front|-1].begin - s.release, passes[|passes|-1].begin - t.release,
        passes[|passes|-1].begin - front[|front|-1].begin - period, t.skipped - s.skipped)
  {}

  /** What an interval error of a step says about its lateness and that of the step before. */
  ghost predicate IntervalOk(before: int, last: int, error: int, skips: int) {
    && Early(error) <= (if before > TOLERANCE_NS then 1 else 0)
    && Late(error) <= (if last > TOLERANCE_NS then 1 else 0) + skips
  }

  ghost predicate NeverBack(times: seq<int>) { forall i :: 0 < i < |times| ==> times[i-1] <= times[i] }

  /** Interval totals telescope, and minimum and maximum bound the mean. */
  lemma {:induction false} IntervalsTelescope(times: seq<int>)
    requires NeverBack(times)
    ensures Bounded(Intervals(times))
    ensures |times| > 0 ==>
      && Intervals(times).samples == |times| - 1
      && Intervals(times).total == times[|times|-1] - times[0]
  {
    if |times| >= 2 {
      IntervalsTelescope(times[..|times|-1]);
      AddKeepsBounds(Intervals(times[..|times|-1]), times[|times|-1] - times[|times|-2]);
      hide AddSample, Bounded;
    }
  }

  lemma IntervalsNext(times: seq<int>, x: int)
    ensures times == [] ==> Intervals(times) == Intervals(times + [x]) == NO_STATS
    ensures times != [] ==> Intervals(times + [x]) == AddSample(Intervals(times), x - times[|times|-1])
  {
    assert (times + [x])[..|times|] == times;
  }

  /** The readings of a legal run never run back. */
  lemma {:induction false} LegalNeverBack(now: nat, period: int, passes: seq<Pass>)
    requires Legal(now, period, passes)
    ensures NeverBack(Starts(passes)) && NeverBack(Begins(passes))
  {
    if |passes| > 1 {
      var front := passes[..|passes|-1];
      LegalNeverBack(now, period, front);
      assert forall i :: 0 < i < |front| ==> Starts(passes)[i] == Starts(front)[i] && Begins(passes)[i] == Begins(front)[i];
      assert Starts(front)[0] == Starts(passes)[0] && Begins(front)[0] == Begins(passes)[0];
    }
  }

  // ----- the outside

  datatype Sleep = Woken | Interrupted | Failed

  /** One reading of the clock. `stopBefore` and `stopAfter`: a check of the stop signal just before
      or just after it finds one. `sleep`: how a sleep before it returned. `background`: after it the
      background thread asks the loop to leave. */
  datatype Tick = Tick(time: nat, stopBefore: bool, stopAfter: bool, sleep: Sleep, background: bool)

  /** The clock never runs back. */
  ghost predicate Monotone(now: nat, tape: seq<Tick>) {
    && (forall i :: 0 <= i < |tape| ==> now <= tape[i].time)
    && (forall i, j :: 0 <= i <= j < |tape| ==> tape[i].time <= tape[j].time)
  }

  /** How a call ended, and how many readings had been taken then. */
  datatype Waited = Waited(result: Result, read: nat)

  /** The sleep loop: repeated only while interrupted before the deadline. */
  function SleepOver(tape: seq<Tick>, i: nat, deadline: int): (w: Waited)
    ensures w.result == Released ==> i < w.read <= |tape|
    ensures w.result != Overflow
    decreases |tape| - i
  {
    if i >= |tape| then Waited(Pending, i)
    else if tape[i].stopBefore then Waited(Stopped, i)
    else if tape[i].sleep == Failed then Waited(SleepError, i + 1)
    else if tape[i].sleep == Interrupted && tape[i].time < deadline then SleepOver(tape, i + 1, deadline)
    else Waited(Released, i + 1)
  }

  /** The busy tail, after at least one reading. */
  function SpinOver(tape: seq<Tick>, i: nat, release: int): (w: Waited)
    requires 0 < i <= |tape|
    ensures w.result == Released ==> i <= w.read <= |tape| && tape[w.read - 1].time >= release
    ensures w.result in {Released, Stopped, Pending}
    decreases |tape| - i
  {
    if tape[i-1].time >= release then Waited(Released, i)
    else if i == |tape| then Waited(Pending, i)
    else if tape[i].stopBefore then Waited(Stopped, i)
    else SpinOver(tape, i + 1, release)
  }

  /** From the second reading of the wait to its last check. */
  function AwaitOver(tape: seq<Tick>, i: nat, release: int, spinUs: int): (w: Waited)
    ensures w.result == Released ==> i < w.read <= |tape| && tape[w.read - 1].time >= release
    ensures w.result != Overflow
  {
    if i >= |tape| then Waited(Pending, i)
    else if tape[i].stopAfter then Waited(Stopped, i + 1)
    else
      var deadline := SleepDeadline(release, spinUs);
      var slept := if tape[i].time < deadline then SleepOver(tape, i + 1, deadline) else Waited(Released, i + 1);
      if slept.result != Released then slept
      else
        var spun := SpinOver(tape, slept.read, release);
        if spun.result == Released && tape[spun.read - 1].stopAfter then Waited(Stopped, spun.read) else spun
  }

  /** A whole wait of a loop with these counters. */
  function WaitOver(tape: seq<Tick>, i: nat, t: Track, period: int, spinUs: int): (w: Waited)
    ensures w.result == Released ==> i + 1 < w.read <= |tape| && Caught(t, tape[i].time, period).Some?
    ensures w.result in {Stopped, Overflow} ==> i < |tape|
    ensures w.result == Overflow ==> NextFutureRelease(t.next, tape[i].time, period).None?
  {
    if i >= |tape| then Waited(Pending, i)
    else if tape[i].stopAfter then Waited(Stopped, i + 1)
    else
      var caught := Caught(t, tape[i].time, period);
      if caught.None? then Waited(Overflow, i + 1) else AwaitOver(tape, i + 1, caught.value.next, spinUs)
  }

  /** How a run is over: with a report, or because a release overflowed, a sleep failed, or the
      answers ended. */
  datatype Finish = Ended(ending: Ending) | Overflowed(entry: int) | SleepFailed | CutOff

  /** What one pass came to, and how many readings had been taken then. */
  datatype Outcome = Passed(pass: Pass, read: nat) | Over(finish: Finish)

  /** One pass: wait, begin, end. Told to by the background thread it breaks off after the wait. */
  function PassOver(tape: seq<Tick>, i: nat, t: Track, period: int, spinUs: int): (o: Outcome)
    ensures o.Passed? ==> i < |tape| && o.pass.entry == tape[i].time && Caught(t, o.pass.entry, period).Some?
    ensures o.Over? && o.finish.Overflowed? ==> NextFutureRelease(t.next, o.finish.entry, period).None?
    ensures o.Over? && o.finish.Ended? ==> !o.finish.ending.Left?
  {
    var w := WaitOver(tape, i, t, period, spinUs);
    match w.result
    case Pending => Over(CutOff)
    case SleepError => Over(SleepFailed)
    case Overflow => Over(Overflowed(tape[i].time))
    case Stopped => Over(Ended(if tape[i].stopAfter then StoppedOnEntry(tape[i].time) else StoppedWaiting(tape[i].time)))
    case Released =>
      var start, k := tape[w.read - 1], w.read;
      if start.background then Over(if k < |tape| then Ended(Broken(tape[i].time, start.time, tape[k].time)) else CutOff)
      else if k + 1 < |tape| then Passed(Pass(tape[i].time, start.time, tape[k].time, tape[k+1].time), k + 2)
      else Over(CutOff)
  }

  /** The passes that were made, and how the run was over. */
  datatype Course = Course(passes: seq<Pass>, finish: Finish)

  /** What a model that asks to stop after `rounds` steps makes of the answers. */
  function CourseOf(tape: seq<Tick>, i: nat, t: Track, period: int, spinUs: int, rounds: nat): Course
    decreases rounds
  {
    if rounds == 0 then Course([], if i < |tape| then Ended(Left(tape[i].time)) else CutOff)
    else
      var outcome := PassOver(tape, i, t, period, spinUs);
      if outcome.Over? then Course([], outcome.finish)
      else
        var after := Taken(Caught(t, outcome.pass.entry, period).value, period);
        var rest := CourseOf(tape, outcome.read, after, period, spinUs, rounds - 1);
        Course([outcome.pass] + rest.passes, rest.finish)
  }

  /** No reading from `i` on before reading `k` reaches the goal. */
  ghost predicate NoneReaches(tape: seq<Tick>, i: nat, k: nat, goal: int) {
    forall j :: i <= j < k && j < |tape| ==> tape[j].time < goal
  }

  /** No check before readings `i` to `k - 1` finds a stop. */
  ghost predicate NoStopBefore(tape: seq<Tick>, i: nat, k: nat) {
    forall j :: i <= j < k && j < |tape| ==> !tape[j].stopBefore
  }

  lemma {:induction false} SleepReadings(tape: seq<Tick>, i: nat, deadline: int)
    ensures
      var w := SleepOver(tape, i, deadline);
      && (w.result == Released ==> NoneReaches(tape, i, w.read - 1, deadline) && NoStopBefore(tape, i, w.read))
      && (w.result == Released ==> forall j :: i <= j < w.read && j < |tape| ==> tape[j].sleep != Failed)
      && (w.result == Released && tape[w.read - 1].sleep == Interrupted ==> tape[w.read - 1].time >= deadline)
      && (w.result == Released ==> forall j :: i <= j < w.read - 1 && j < |tape| ==> tape[j].sleep == Interrupted)
      && (w.result == SleepError ==> i < w.read <= |tape| && tape[w.read - 1].sleep == Failed)
    decreases |tape| - i
  {
    if i < |tape| && tape[i].sleep == Interrupted && tape[i].time < deadline { SleepReadings(tape, i + 1, deadline); }
  }

  lemma {:induction false} SpinReadings(tape: seq<Tick>, i: nat, release: int)
    requires 0 < i <= |tape|
    ensures
      var w := SpinOver(tape, i, release);
      w.result == Released ==> NoneReaches(tape, i - 1, w.read - 1, release) && NoStopBefore(tape, i, w.read)
    decreases |tape| - i
  {
    if tape[i-1].time < release && i < |tape| { SpinReadings(tape, i + 1, release); }
  }

  /** A wait that takes its release ends with the first reading at or after it, and no check on the
      way found a stop. */
  lemma WaitReadings(tape: seq<Tick>, i: nat, release: int, spinUs: int)
    requires 0 <= spinUs <= 500 && release >= 0
    ensures
      var w := AwaitOver(tape, i, release, spinUs);
      w.result == Released ==>
        && NoneReaches(tape, i, w.read - 1, release) && NoStopBefore(tape, i + 1, w.read)
        && !tape[i].stopAfter && !tape[w.read - 1].stopAfter
        && (tape[i].time < SleepDeadline(release, spinUs) ==> i + 1 < |tape| && tape[i + 1].sleep != Failed)
  {
    hide SleepOver, SpinOver, SleepDeadline;
    if i < |tape| {
      var deadline := SleepDeadline(release, spinUs);
      SleepReadings(tape, i + 1, deadline);
      var slept := if tape[i].time < deadline then SleepOver(tape, i + 1, deadline) else Waited(Released, i + 1);
      if slept.result == Released { SpinReadings(tape, slept.read, release); }
    }
  }

  /** A pass starts at the first reading, after that of its entry, that is at or after its release;
      the model step begins and ends with the next two. Nobody has asked the loop to stop by then. */
  lemma PassReadings(tape: seq<Tick>, i: nat, t: Track, period: int, spinUs: int)
    requires period > 0 && 0 <= spinUs <= 500 && PassOver(tape, i, t, period, spinUs).Passed?
    requires Caught(t, PassOver(tape, i, t, period, spinUs).pass.entry, period).value.next >= 0
    ensures
      var o := PassOver(tape, i, t, period, spinUs);
      var k, release := o.read - 3, Caught(t, tape[i].time, period).value.next;
      && i < k && k + 2 < |tape|
      && o.pass == Pass(tape[i].time, tape[k].time, tape[k+1].time, tape[k+2].time)
      && release <= tape[k].time && NoneReaches(tape, i + 1, k, release)
      && NoStopBefore(tape, i + 2, k + 1) && !tape[i].stopAfter && !tape[i+1].stopAfter && !tape[k].stopAfter && !tape[k].background
      && (tape[i + 1].time < SleepDeadline(release, spinUs) ==> tape[i + 2].sleep != Failed)
  {
    hide AwaitOver;
    WaitReadings(tape, i + 1, Caught(t, tape[i].time, period).value.next, spinUs);
    hide Caught;
  }

  // ----- a run that nothing disturbs

  /** No stop, no failed sleep, no word from the background thread, and the clock stays in range. */
  ghost predicate Calm(tape: seq<Tick>, period: int) {
    forall i :: 0 <= i < |tape| ==>
      && !tape[i].stopBefore && !tape[i].stopAfter && tape[i].sleep != Failed && !tape[i].background
      && tape[i].time + period <= INT64_MAX
  }

  /** The clock moves on by a period within every `w` readings. */
  ghost predicate Advances(tape: seq<Tick>, w: nat, period: int) {
    forall i :: 0 <= i && i + w < |tape| ==> tape[i + w].time >= tape[i].time + period
  }

  /** The readings of a wait last, if some reading `lim` reaches the deadline. */
  ghost predicate Lasts(tape: seq<Tick>, lim: int, goal: int) { 0 <= lim < |tape| && tape[lim].time >= goal }

  lemma {:induction false} CalmSleep(tape: seq<Tick>, i: nat, deadline: int, period: int, lim: int)
    requires Calm(tape, period)
    ensures var w := SleepOver(tape, i, deadline);
      && w.result in {Released, Pending}
      && (i <= lim && Lasts(tape, lim, deadline) ==> w.result == Released && w.read <= lim + 1)
    decreases |tape| - i
  {
    if i < |tape| && tape[i].sleep == Interrupted && tape[i].time < deadline {
      CalmSleep(tape, i + 1, deadline, period, lim);
    }
  }

  lemma {:induction false} CalmSpin(tape: seq<Tick>, i: nat, release: int, period: int, lim: int)
    requires Calm(tape, period) && 0 < i <= |tape|
    ensures var w := SpinOver(tape, i, release);
      && w.result in {Released, Pending}
      && (i <= lim + 1 && Lasts(tape, lim, release) ==> w.result == Released && w.read <= lim + 1)
    decreases |tape| - i
  {
    if tape[i-1].time < release && i < |tape| {
      CalmSpin(tape, i + 1, release, period, lim);
    }
  }

  lemma CalmAwait(tape: seq<Tick>, i: nat, release: int, spinUs: int, period: int, lim: int)
    requires Calm(tape, period) && 0 <= spinUs <= 500 && release >= 0
    ensures var w := AwaitOver(tape, i, release, spinUs);
      && w.result in {Released, Pending}
      && (i <= lim && Lasts(tape, lim, release) ==> w.result == Released && w.read <= lim + 1)
  {
    hide SleepOver, SpinOver, SleepDeadline;
    if i < |tape| {
      var deadline := SleepDeadline(release, spinUs);
      CalmSleep(tape, i + 1, deadline, period, lim);
      var slept := if tape[i].time < deadline then SleepOver(tape, i + 1, deadline) else Waited(Released, i + 1);
      if slept.result == Released { CalmSpin(tape, slept.read, release, period, lim); }
    }
  }

  /** The counters fit the readings: the next release is on the grid, and at most a period ahead. */
  ghost predicate Fits(t: Track, time: int, period: int) { 0 <= t.next <= time + period }

  lemma CaughtFits(t: Track, entry: nat, period: int)
    requires period > 0 && Fits(t, entry, period) && entry + period <= INT64_MAX
    ensures Caught(t, entry, period).Some? && 0 <= Caught(t, entry, period).value.next <= entry + period
  {
    hide NextFutureRelease;
    NoOverflowInRange(t.next, entry, period);
    NextIsLeast(t.next, entry, period, 0);
    if entry < t.next { NextBefore(t.next, entry, period); }
  }

  lemma NextBefore(scheduled: int, now: int, period: int)
    requires NextFutureRelease(scheduled, now, period).Some? && now < scheduled
    ensures NextFutureRelease(scheduled, now, period).value.0 == scheduled
  {}

  lemma CalmPass(tape: seq<Tick>, i: nat, t: Track, now: nat, period: int, spinUs: int, w: nat)
    requires Calm(tape, period) && Monotone(now, tape) && period > 0 && 0 <= spinUs <= 500
    requires i < |tape| ==> Fits(t, tape[i].time, period)
    ensures var o := PassOver(tape, i, t, period, spinUs);
      && (o.Over? ==> o.finish == CutOff)
      && (o.Passed? ==>
        && o.read > i
        && (o.read < |tape| ==> Fits(Taken(Caught(t, o.pass.entry, period).value, period), tape[o.read].time, period)))
      && (Advances(tape, w, period) && w > 0 && i + w + 3 <= |tape| ==> o.Passed? && o.read <= i + w + 3)
  {
    if i < |tape| {
      CaughtFits(t, tape[i].time, period);
      hide SleepDeadline, Finished, AwaitOver, Calm, NextFutureRelease;
      var next := Caught(t, tape[i].time, period).value.next;
      CalmTick(tape, i, period);
      CalmAwait(tape, i + 1, next, spinUs, period, i + w);
      var o := WaitOver(tape, i, t, period, spinUs);
      if o.result == Released { CalmTick(tape, o.read - 1, period); }
      hide Caught;
    }
  }

  lemma CalmTick(tape: seq<Tick>, i: nat, period: int)
    requires Calm(tape, period) && i < |tape|
    ensures !tape[i].stopAfter && !tape[i].background
  {}

  function Needed(rounds: nat, w: nat): nat { if rounds == 0 then 0 else Needed(rounds - 1, w) + w + 3 }

  lemma NeededIs(rounds: nat, w: nat)
    ensures Needed(rounds, w) == rounds * (w + 3)
  {}

  /** All rounds were made and reported, or the answers ended before: not if there were `enough`. */
  ghost predicate Complete(c: Course, rounds: nat, enough: bool) {
    && (c.finish == CutOff || (c.finish.Ended? && c.finish.ending.Left? && |c.passes| == rounds))
    && (enough ==> c.finish != CutOff)
  }

  ghost predicate Enough(tape: seq<Tick>, i: nat, rounds: nat, w: nat, period: int) {
    Advances(tape, w, period) && w > 0 && i + Needed(rounds, w) < |tape|
  }

  lemma {:induction false} CalmCourse(tape: seq<Tick>, i: nat, t: Track, now: nat, period: int, spinUs: int, rounds: nat, w: nat)
    requires Calm(tape, period) && Monotone(now, tape) && period > 0 && 0 <= spinUs <= 500
    requires i < |tape| ==> Fits(t, tape[i].time, period)
    ensures Complete(CourseOf(tape, i, t, period, spinUs, rounds), rounds, Enough(tape, i, rounds, w, period))
    decreases rounds
  {
    hide Fits, Calm, Monotone, Advances, PassOver, Taken, Caught;
    if rounds > 0 {
      CalmPass(tape, i, t, now, period, spinUs, w);
      var o := PassOver(tape, i, t, period, spinUs);
      if o.Passed? {
        var after := Taken(Caught(t, o.pass.entry, period).value, period);
        CalmCourse(tape, o.read, after, now, period, spinUs, rounds - 1, w);
        hide Complete, Needed, Enough;
        MoreEnough(tape, i, o.read, rounds, w, period);
        PassBefore(o.pass, CourseOf(tape, o.read, after, period, spinUs, rounds - 1), rounds - 1,
          Enough(tape, i, rounds, w, period), Enough(tape, o.read, rounds - 1, w, period));
      }
    }
  }

  lemma MoreEnough(tape: seq<Tick>, i: nat, read: nat, rounds: nat, w: nat, period: int)
    requires rounds > 0 && (Advances(tape, w, period) && w > 0 && i + w + 3 <= |tape| ==> read <= i + w + 3)
    ensures Enough(tape, i, rounds, w, period) ==> Enough(tape, read, rounds - 1, w, period)
  {
    hide Advances;
  }

  lemma PassBefore(pass: Pass, rest: Course, rounds: nat, enough: bool, still: bool)
    requires Complete(rest, rounds, still) && (enough ==> still)
    ensures Complete(Course([pass] + rest.passes, rest.finish), rounds + 1, enough)
  {}

  /** A run that nothing disturbs reports all its rounds, unless the answers end before; if the
      clock moves on by a period within every `w` readings, `w + 3` readings a round and one more
      are enough. */
  lemma UndisturbedCompletes(tape: seq<Tick>, now: nat, period: int, spinUs: int, rounds: nat, w: nat)
    requires Calm(tape, period) && Monotone(now, tape) && period > 0 && 0 <= spinUs <= 500
    ensures var c := CourseOf(tape, 0, Track(now + period, 0, 0, 0, 0), period, spinUs, rounds);
      && (c.finish == CutOff || (c.finish.Ended? && c.finish.ending.Left? && |c.passes| == rounds))
      && (Advances(tape, w, period) && w > 0 && rounds * (w + 3) < |tape| ==> c.finish != CutOff)
  {
    NeededIs(rounds, w);
    CalmCourse(tape, 0, Track(now + period, 0, 0, 0, 0), now, period, spinUs, rounds, w);
  }

  class Runtime {
    const period: int
    const spinUs: int
    const tape: seq<Tick>
    var at: nat     // readings taken
    var clock: nat  // the newest reading
    var halted: bool
    var stepActive: bool
    var nextRelease: int
    var release: int
    var started: int
    var cycles: nat
    var skipped: nat
    var misses: nat
    var cycleInterval: Stats  // base-rate loop, start to start
    var wakeLatency: int
    var modelActive: bool
    var modelStarted: int
    var modelCalls: nat
    var modelInterval: Stats   // model step, entry to entry
    var modelExecution: Stats  // model step, entry to return
    var releaseLateness: int
    var early: nat
    var late: nat
    ghost var origin: int        // the initial grid point
    ghost var begun: bool        // begin was called since the last wait
    ghost var beginIndex: nat    // grid index of the release of the newest begin
    ghost var firstStart: int    // start of the first cycle
    ghost var firstModelStart: int

    ghost predicate ClockOk()
      reads this`clock, this`at
    {
      && at <= |tape| && (at > 0 ==> clock == tape[at-1].time)
      && (forall i :: at <= i < |tape| ==> clock <= tape[i].time)
      && (forall i, j :: 0 <= i <= j < |tape| ==> tape[i].time <= tape[j].time)
    }

    /** `report`. */
    function Summary(): Report
      reads this
    {
      Report(Counters(), modelCalls, modelInterval, early, late, modelExecution, cycleInterval)
    }

    /** The grid and the current cycle, without the statistics. */
    ghost predicate GridOk()
      reads this`clock, this`halted, this`stepActive, this`nextRelease, this`release, this`started, this`cycles, this`skipped, this`origin
    {
      && period > 0 && 0 <= spinUs <= 500
      && 0 <= nextRelease == Grid(origin, cycles + skipped, period)
      && (cycles == 0 ==> !stepActive)
      && (stepActive ==> !halted)
      && (cycles > 0 ==> started <= clock && release <= started && (stepActive ==> release == nextRelease - period))
    }

    /** Everything but the bookkeeping of the model step and the deadline misses. */
    ghost predicate OnGrid()
      reads this`clock, this`halted, this`stepActive, this`nextRelease, this`release, this`started, this`cycles, this`skipped, this`origin,
        this`cycleInterval, this`firstStart
    {
      && GridOk() && Bounded(cycleInterval)
      && (cycles == 0 ==> cycleInterval == NO_STATS)
      && (cycles > 0 ==> cycleInterval.samples == cycles - 1 && cycleInterval.total == started - firstStart)
    }

    ghost predicate ModelOk()
      reads this`clock, this`origin, this`cycles, this`skipped, this`modelActive, this`modelStarted, this`modelCalls,
        this`modelInterval, this`modelExecution, this`releaseLateness, this`begun, this`beginIndex, this`firstModelStart
    {
      && Bounded(modelExecution) && Bounded(modelInterval)
      && (modelCalls == 0 ==> modelInterval == NO_STATS && !modelActive)
      && (modelCalls > 0 ==>
        && modelInterval.samples == modelCalls - 1
        && modelInterval.total == modelStarted - firstModelStart
        && modelStarted <= clock
        && beginIndex + (if begun then 1 else 2) <= cycles + skipped
        && releaseLateness == modelStarted - Grid(origin, beginIndex, period) >= 0)
    }

    ghost predicate Valid()
      reads this
    {
      ClockOk() && OnGrid() && ModelOk() && misses <= skipped + (if halted then 1 else 0) && (!halted ==> (stepActive <==> cycles > 0))
    }

    function Counters(): Track
      reads this`nextRelease, this`release, this`cycles, this`skipped, this`misses
    {
      Track(nextRelease, release, cycles, skipped, misses)
    }

    /** `model_entry`: the first release is one period after the thread starts. */
    constructor (period: int, spinUs: int, now: nat, tape: seq<Tick>)
      requires period > 0 && 0 <= spinUs <= 500 && Monotone(now, tape)
      ensures Valid() && !halted && !stepActive && cycles == 0 && origin == nextRelease == now + period
      ensures this.period == period && this.spinUs == spinUs && this.tape == tape && at == 0 && clock == now
      ensures modelCalls == 0 && !modelActive && Counters() == Track(now + period, 0, 0, 0, 0)
      ensures cycleInterval == NO_STATS && modelInterval == NO_STATS && modelExecution == NO_STATS && early == late == 0
    {
      this.period, this.spinUs, this.tape, at, clock := period, spinUs, tape, 0, now;
      halted, stepActive, modelActive := false, false, false;
      nextRelease, origin, release, started, cycles, skipped, misses := now + period, now + period, 0, 0, 0, 0, 0;
      cycleInterval, modelInterval, modelExecution := NO_STATS, NO_STATS, NO_STATS;
      wakeLatency, modelStarted, modelCalls, releaseLateness, early, late := 0, 0, 0, 0, 0, 0;
      begun, beginIndex, firstStart, firstModelStart := false, 0, 0, 0;
    }

    /** A reading of the monotone clock, if there is one. */
    method Now() returns (ok: bool)
      requires ClockOk()
      modifies this`clock, this`at
      ensures ClockOk() && clock >= old(clock) && ok == (old(at) < |tape|)
      ensures at == if ok then old(at) + 1 else old(at)
      ensures ok ==> clock == tape[old(at)].time
      ensures old(OnGrid() && ModelOk()) ==> OnGrid() && ModelOk()
    {
      ok := at < |tape|;
      if ok {
        clock := tape[at].time;
        at := at + 1;
      }
    }

    /** The sleep loop. */
    method SleepToward(deadline: int) returns (result: Result)
      requires ClockOk()
      modifies this`clock, this`at
      ensures ClockOk() && clock >= old(clock) && (result == Released ==> at > old(at))
      ensures SleepOver(tape, old(at), deadline) == Waited(result, at)
      ensures old(OnGrid() && ModelOk()) ==> OnGrid() && ModelOk()
    {
      hide Runtime.OnGrid, Runtime.ModelOk;
      var again := true;
      while again
        invariant old(OnGrid() && ModelOk()) ==> OnGrid() && ModelOk()
        invariant ClockOk() && clock >= old(clock) && at >= old(at) && (!again ==> at > old(at))
        invariant SleepOver(tape, old(at), deadline) == if again then SleepOver(tape, at, deadline) else Waited(Released, at)
        decreases again, |tape| - at
      {
        if at == |tape| { return Pending; }
        var status, stop := tape[at].sleep, tape[at].stopBefore;
        if stop { return Stopped; }
        var ok := Now();
        if status == Failed { return SleepError; }
        again := status == Interrupted && clock < deadline;
      }
      result := Released;
    }

    /** The bounded busy tail up to the release. */
    method Spin() returns (result: Result)
      requires ClockOk() && at > 0
      modifies this`clock, this`at
      ensures ClockOk() && clock >= old(clock) && at >= old(at)
      ensures SpinOver(tape, old(at), nextRelease) == Waited(result, at)
      ensures old(OnGrid() && ModelOk()) ==> OnGrid() && ModelOk()
      ensures result == Released ==> clock >= nextRelease
    {
      hide Runtime.OnGrid, Runtime.ModelOk;
      while clock < nextRelease
        invariant old(OnGrid() && ModelOk()) ==> OnGrid() && ModelOk()
        invariant ClockOk() && clock >= old(clock) && at >= old(at)
        invariant SpinOver(tape, old(at), nextRelease) == SpinOver(tape, at, nextRelease)
        decreases |tape| - at
      {
        if at == |tape| { return Pending; }
        if tape[at].stopBefore { return Stopped; }
        var ok := Now();
      }
      result := Released;
    }

    /** `finish_step` when a step is active: it missed its deadline if it ran past the next grid point. */
    method FinishStep(finished: int)
      requires Valid() && !halted && finished == clock
      modifies this`misses, this`stepActive
      ensures OnGrid() && ModelOk() && !stepActive
      ensures misses <= skipped + (if finished > nextRelease then 1 else 0)
      ensures misses == old(misses) + (if old(stepActive) && finished > release + period then 1 else 0)
      ensures Counters() == Finished(old(Counters()), finished, period)
    {
      if !stepActive { return; }
      if finished > release + period { misses := misses + 1; }
      stepActive := false;
    }

    /** The base-rate branch of `__wrap_sem_wait`. On a release: the step starts at or after the
        least grid point that was still ahead when the wait was entered, and every skipped or used
        grid point is accounted for. */
    method Wait() returns (result: Result, entry: int, waiting: bool)
      requires Valid() && !halted
      modifies this`clock, this`at, this`misses, this`stepActive, this`halted, this`nextRelease, this`skipped, this`release,
        this`cycleInterval, this`started, this`cycles, this`wakeLatency, this`begun, this`firstStart
      ensures Valid() && origin == old(origin) && old(clock) <= entry <= clock
      ensures WaitOver(tape, old(at), old(Counters()), period, spinUs) == Waited(result, at)
      ensures result == Released ==> !halted && clock == started == tape[at-1].time
      ensures result !in {Released, Pending} ==> halted
      ensures old(at) < |tape| ==> entry == tape[old(at)].time
      ensures cycleInterval ==
        if result == Released && old(cycles) > 0 then AddSample(old(cycleInterval), started - old(started)) else old(cycleInterval)
      ensures result == Released ==>
        && entry < release <= started && stepActive && !begun
        && cycles == old(cycles) + 1 && skipped >= old(skipped)
        && nextRelease == Grid(origin, cycles + skipped, period) && release == nextRelease - period
        && release == Grid(old(nextRelease), skipped - old(skipped), period)
        && (skipped > old(skipped) ==> release - period <= entry)
        && misses <= skipped
        && wakeLatency == started - release
      ensures result == Released ==>
        Caught(old(Counters()), entry, period).Some? && Counters() == Taken(Caught(old(Counters()), entry, period).value, period)
      ensures old(at) < |tape| ==> misses == old(misses) + (if old(stepActive) && entry > old(release) + period then 1 else 0)
      ensures result == Stopped ==> (waiting <==> !tape[old(at)].stopAfter)
      ensures result == Stopped && waiting ==> Some(Counters()) == Caught(old(Counters()), entry, period)
      ensures result == Stopped && !waiting ==> Counters() == Finished(old(Counters()), entry, period)
    {
      hide Bounded, Grid, AddSample, AwaitOver, Runtime.OnGrid, Runtime.ModelOk, Runtime.ClockOk;
      result, entry, waiting := EnterWait();
      if !waiting { return; }
      hide Missed, Caught, Finished, NextFutureRelease, Taken;
      result := AwaitRelease();
    }

    /** The wait up to the next release: the step before is finished, and missed releases are skipped
        unless a stop is seen. */
    method EnterWait() returns (result: Result, entry: int, waiting: bool)
      requires Valid() && !halted
      modifies this`clock, this`at, this`misses, this`stepActive, this`halted, this`nextRelease, this`skipped
      ensures ClockOk() && OnGrid() && ModelOk() && old(clock) <= entry == clock
      ensures result in {Released, Stopped, Overflow, Pending} && (waiting <==> result == Released)
      ensures result == Pending <==> old(at) >= |tape|
      ensures result == Pending ==> Valid() && at == old(at) && misses == old(misses) && !halted
      ensures result != Pending ==>
        && entry == tape[old(at)].time && at == old(at) + 1 && !stepActive && (result == Stopped <==> tape[old(at)].stopAfter)
        && misses == old(misses) + (if old(stepActive) && entry > old(release) + period then 1 else 0)
      ensures result == Stopped ==> Valid() && halted && Counters() == Finished(old(Counters()), entry, period)
      ensures result == Overflow ==> Valid() && halted && Caught(old(Counters()), entry, period).None?
      ensures waiting ==>
        && !halted && misses <= skipped && skipped >= old(skipped) && entry < nextRelease
        && nextRelease == Grid(old(nextRelease), skipped - old(skipped), period)
        && (skipped > old(skipped) ==> nextRelease - period <= entry)
        && Some(Counters()) == Caught(old(Counters()), entry, period)
    {
      hide Bounded, Grid, AddSample, Runtime.OnGrid, Runtime.ModelOk, Runtime.ClockOk;
      var ok := Now();
      entry, waiting := clock, false;
      if !ok { return Pending, entry, waiting; }
      FinishStep(clock);
      hide Missed;
      if tape[at-1].stopAfter { Halt(); return Stopped, entry, waiting; }
      var fits := SkipMissed(clock);
      if !fits { Halt(); return Overflow, entry, waiting; }
      result, waiting := Released, true;
    }

    /** The rest of the wait, once the next release is known. */
    method AwaitRelease() returns (result: Result)
      requires ClockOk() && OnGrid() && ModelOk() && misses <= skipped && !halted && !stepActive
      modifies this`clock, this`at, this`stepActive, this`halted, this`nextRelease, this`release,
        this`cycleInterval, this`started, this`cycles, this`wakeLatency, this`begun, this`firstStart
      ensures Valid() && old(clock) <= clock && (result == Released <==> !halted)
      ensures AwaitOver(tape, old(at), old(nextRelease), spinUs) == Waited(result, at)
      ensures cycleInterval ==
        if result == Released && old(cycles) > 0 then AddSample(old(cycleInterval), started - old(started)) else old(cycleInterval)
      ensures result == Released ==>
        && Counters() == Taken(old(Counters()), period) && nextRelease == Grid(origin, cycles + skipped, period)
        && cycles == old(cycles) + 1 && release == old(nextRelease) && nextRelease == release + period
        && release <= started == clock == tape[at-1].time && stepActive && !begun && wakeLatency == started - release
      ensures result != Released ==> Counters() == old(Counters())
    {
      hide Bounded, Grid, AddSample, AwaitOver, Runtime.OnGrid, Runtime.ModelOk, Runtime.ClockOk;
      result := Await();
      if result != Released { Halt(); return; }
      StartCycle(clock);
    }

    method Halt()
      requires ClockOk() && OnGrid() && ModelOk() && !stepActive && misses <= skipped + 1
      modifies this`halted
      ensures Valid() && halted
    {
      hide Bounded, Grid;
      halted := true;
    }

    /** Move to the next future release, counting the skipped ones. */
    method SkipMissed(entry: int) returns (fits: bool)
      requires OnGrid() && ModelOk() && !stepActive && entry == clock
      requires misses <= skipped + (if entry > nextRelease then 1 else 0)
      modifies this`nextRelease, this`skipped
      ensures OnGrid() && ModelOk()
      ensures fits <==> NextFutureRelease(old(nextRelease), entry, period).Some?
      ensures !fits ==> nextRelease == old(nextRelease) && skipped == old(skipped)
      ensures fits ==> NextFutureRelease(old(nextRelease), entry, period) == Some((nextRelease, skipped - old(skipped)))
      ensures fits ==>
        && misses <= skipped && skipped >= old(skipped) && entry < nextRelease
        && nextRelease == Grid(old(nextRelease), skipped - old(skipped), period)
        && (skipped > old(skipped) ==> nextRelease - period <= entry)
    {
      hide Bounded, Grid;
      var next := NextFutureRelease(nextRelease, entry, period);
      if next.None? { return false; }
      hide NextFutureRelease;
      NextIsLeast(nextRelease, entry, period, 0);
      GridSteps(origin, cycles + skipped, next.value.1, period);
      nextRelease, skipped := next.value.0, skipped + next.value.1;
      fits := true;
    }

    /** Sleep if there is time for it, then spin to the release. */
    method Await() returns (result: Result)
      requires ClockOk() && OnGrid() && ModelOk()
      modifies this`clock, this`at
      ensures ClockOk() && OnGrid() && ModelOk() && clock >= old(clock)
      ensures AwaitOver(tape, old(at), nextRelease, spinUs) == Waited(result, at)
      ensures result == Released ==> clock == tape[at-1].time >= nextRelease
    {
      hide SleepOver, SpinOver, SleepDeadline, Runtime.OnGrid, Runtime.ModelOk;
      var ok := Now();
      if !ok { return Pending; }
      if tape[at-1].stopAfter { return Stopped; }
      var deadline := SleepDeadline(nextRelease, spinUs);
      if clock < deadline {
        result := SleepToward(deadline);
        if result != Released { return; }
      }
      result := Spin();
      if result == Released && tape[at-1].stopAfter { return Stopped; }
    }

    /** The end of the wait: the release is taken and the statistics of the cycle start are kept. */
    method StartCycle(current: int)
      requires ClockOk() && OnGrid() && ModelOk() && misses <= skipped && !halted && !stepActive && current == clock >= nextRelease
      modifies this`release, this`nextRelease, this`cycleInterval, this`started, this`cycles, this`wakeLatency, this`stepActive,
        this`begun, this`firstStart
      ensures Valid() && stepActive && !begun
      ensures release == old(nextRelease) && nextRelease == release + period && cycles == old(cycles) + 1
      ensures nextRelease == Grid(origin, cycles + skipped, period)
      ensures started == clock && wakeLatency == started - release
      ensures cycleInterval == if old(cycles) > 0 then AddSample(old(cycleInterval), started - old(started)) else old(cycleInterval)
    {
      hide Bounded, Grid, AddSample, Runtime.GridOk, Runtime.ModelOk;
      KeepInterval(current);
      TakeRelease(current);
    }

    method TakeRelease(current: int)
      requires GridOk() && ModelOk() && !halted && !stepActive && current == clock >= nextRelease
      modifies this`release, this`nextRelease, this`started, this`cycles, this`wakeLatency, this`stepActive, this`begun
      ensures GridOk() && ModelOk() && stepActive && !begun && started == current && cycles == old(cycles) + 1
      ensures release == old(nextRelease) && wakeLatency == started - release
      ensures nextRelease == release + period == Grid(origin, cycles + skipped, period)
    {
      hide Bounded, Grid;
      GridSteps(origin, cycles + skipped, 1, period);
      release, nextRelease := nextRelease, nextRelease + period;
      started, cycles, stepActive, begun := current, cycles + 1, true, false;
      wakeLatency := if current > release then current - release else 0;
    }

    /** Start-to-start interval of the base-rate loop, or the first start. */
    method KeepInterval(current: int)
      requires OnGrid() && current == clock
      modifies this`cycleInterval, this`firstStart
      ensures GridOk() && (old(ModelOk()) ==> ModelOk())
      ensures Bounded(cycleInterval) && cycleInterval.samples == cycles
      ensures cycleInterval.total == current - firstStart
      ensures cycleInterval == if cycles > 0 then AddSample(old(cycleInterval), current - started) else old(cycleInterval)
    {
      hide Bounded, Grid, AddSample;
      if cycles == 0 {
        firstStart := current;
      } else {
        AddKeepsBounds(cycleInterval, current - started);
        cycleInterval := AddSample(cycleInterval, current - started);
      }
    }

    /** `simrt_rt_step_begin`, which the generated main calls once per wait. The interval to the
        previous step is `Explained`: an early outlier betrays a late predecessor, a late outlier a
        late release now or skipped ones. */
    method StepBegin() returns (ok: bool, ghost m: nat)
      requires Valid() && !halted && !begun && at < |tape|
      modifies this`clock, this`at, this`modelActive, this`modelStarted, this`modelCalls, this`modelInterval,
        this`releaseLateness, this`early, this`late, this`begun, this`beginIndex, this`firstModelStart
      ensures Valid() && ok == old(stepActive && !modelActive) && clock >= old(clock)
      ensures at == if ok then old(at) + 1 else old(at)
      ensures ok ==> Began(old(modelCalls)) && modelStarted == clock == tape[old(at)].time
      ensures ok && old(modelCalls) == 0 ==>
        firstModelStart == modelStarted && modelInterval == old(modelInterval) && early == old(early) && late == old(late)
      ensures ok && old(modelCalls) > 0 ==>
        && firstModelStart == old(firstModelStart)
        && modelInterval == AddSample(old(modelInterval), modelStarted - old(modelStarted))
        && Explained(modelStarted - old(modelStarted) - period, old(releaseLateness), releaseLateness, m, period)
        && early == old(early) + Early(modelStarted - old(modelStarted) - period)
        && late == old(late) + Late(modelStarted - old(modelStarted) - period)
    {
      hide Bounded, Grid, AddSample, Runtime.OnGrid, Explained, Early, Late, Runtime.Began, Runtime.ClockOk;
      ok, m := stepActive && !modelActive, 0;
      if !ok { return; }
      var read := Now();
      var current := clock;
      ghost var index: int := cycles + skipped - 1;
      assert cycles > 0 && period > 0 && release == Grid(origin, index, period) && release <= current by { OnRelease(); }
      if modelCalls > 0 {
        m := index - beginIndex - 1;
        ErrorExplained(origin, beginIndex, index, period, modelStarted, current);
        KeepModelInterval(current);
      } else {
        firstModelStart := current;
      }
      RecordBegin(current, index);
    }

    /** A step has just begun on the current release. */
    ghost predicate Began(callsBefore: nat)
      reads this
    {
      modelActive && begun && modelCalls == callsBefore + 1 && releaseLateness == modelStarted - release >= 0
    }

    method RecordBegin(current: int, ghost index: nat)
      requires ClockOk() && OnGrid() && misses <= skipped && stepActive && current == clock && index == cycles + skipped - 1
      requires release == Grid(origin, index, period) && release <= current
      requires Bounded(modelInterval) && Bounded(modelExecution)
      requires modelInterval.samples == modelCalls && modelInterval.total == current - firstModelStart
      modifies this`modelActive, this`modelStarted, this`modelCalls, this`releaseLateness, this`begun, this`beginIndex
      ensures Valid() && Began(old(modelCalls)) && modelStarted == current && releaseLateness == current - release
    {
      hide Bounded, Grid;
      releaseLateness, modelStarted, modelCalls, modelActive := current - release, current, modelCalls + 1, true;
      begun, beginIndex := true, index;
    }

    lemma OnRelease()
      requires OnGrid() && stepActive
      ensures cycles > 0 && period > 0 && release == Grid(origin, cycles + skipped - 1, period) && release <= clock
    {
      GridSteps(origin, cycles + skipped - 1, 1, period);
    }

    /** Interval statistics and outlier counts of a model step that is not the first. */
    method KeepModelInterval(current: int)
      requires Bounded(modelInterval) && modelStarted <= current
      modifies this`modelInterval, this`early, this`late
      ensures Bounded(modelInterval) && modelInterval == AddSample(old(modelInterval), current - modelStarted)
      ensures modelInterval.samples == old(modelInterval).samples + 1
      ensures modelInterval.total == old(modelInterval).total + current - modelStarted
      ensures early == old(early) + Early(current - modelStarted - period)
      ensures late == old(late) + Late(current - modelStarted - period)
    {
      hide Bounded, AddSample;
      var interval := current - modelStarted;
      var outlier := IntervalOutlier(interval, period);
      AddKeepsBounds(modelInterval, interval);
      modelInterval := AddSample(modelInterval, interval);
      if outlier < 0 { early := early + 1; } else if outlier > 0 { late := late + 1; }
    }

    /** `simrt_rt_step_end`. */
    method StepEnd() returns (ok: bool)
      requires Valid() && at < |tape|
      modifies this`clock, this`at, this`modelActive, this`modelExecution
      ensures Valid() && ok == old(modelActive) && old(clock) <= clock == tape[old(at)].time && at == old(at) + 1
      ensures ok ==> !modelActive && modelExecution == AddSample(old(modelExecution), clock - modelStarted)
      ensures !ok ==> modelExecution == old(modelExecution)
    {
      hide Bounded, Grid, AddSample, Runtime.ClockOk;
      ok := modelActive;
      var read := Now();
      if !ok { return; }
      AddKeepsBounds(modelExecution, clock - modelStarted);
      modelExecution, modelActive := AddSample(modelExecution, clock - modelStarted), false;
    }

    /** The wrapped post of the stop semaphore: the step still active is finished. After a stop
        signal none is, and nothing changes. */
    method PostStop()
      requires Valid() && !halted && at < |tape|
      modifies this`clock, this`at, this`misses, this`stepActive, this`halted
      ensures Valid() && halted && old(clock) <= clock == tape[old(at)].time
      ensures Counters() == Finished(old(Counters()), clock, period)
    {
      hide Bounded, Grid, AddSample, Runtime.OnGrid, Runtime.ModelOk, Runtime.ClockOk;
      var read := Now();
      FinishStep(clock);
      Halt();
    }

    /** The statistics before and after a start of the base-rate loop or of the model step. */
    static predicate Extends(before: Stats, after: Stats, count: nat, last: int, x: int) {
      after == if count == 0 then before else AddSample(before, x - last)
    }

    /** The model step between its begin and its end. */
    method Step()
      requires Valid() && !halted && stepActive && !begun && !modelActive && at + 1 < |tape|
      modifies this`clock, this`at, this`modelActive, this`modelStarted, this`modelCalls, this`modelInterval,
        this`modelExecution, this`releaseLateness, this`early, this`late, this`begun, this`beginIndex, this`firstModelStart
      ensures Valid() && !modelActive && modelCalls == old(modelCalls) + 1 && at == old(at) + 2
      ensures old(clock) <= modelStarted == tape[old(at)].time <= clock == tape[old(at) + 1].time
      ensures Extends(old(modelInterval), modelInterval, old(modelCalls), old(modelStarted), modelStarted)
      ensures Counts(old(early), early, old(late), late, old(modelCalls), modelStarted - old(modelStarted) - period)
      ensures modelExecution == AddSample(old(modelExecution), clock - modelStarted)
    {
      hide Bounded, Grid, AddSample, Explained, Early, Late, Runtime.GridOk, Runtime.OnGrid, Runtime.ModelOk, Runtime.ClockOk;
      var ok, m := StepBegin();
      ok := StepEnd();
    }

    /** The outlier counts before and after a model step with this interval error. */
    static predicate Counts(early: nat, earlyNow: nat, late: nat, lateNow: nat, calls: nat, error: int) {
      && earlyNow == early + (if calls == 0 then 0 else Early(error))
      && lateNow == late + (if calls == 0 then 0 else Late(error))
    }

    /** One pass of the generated main. */
    method Round() returns (outcome: Outcome)
      requires Valid() && !halted && !modelActive && modelCalls == cycles
      modifies this
      ensures Valid() && origin == old(origin) && clock >= old(clock)
      ensures outcome == PassOver(tape, old(at), old(Counters()), period, spinUs)
      ensures outcome.Passed? ==>
        && !halted && at == outcome.read
        && Counters() == Taken(Caught(old(Counters()), outcome.pass.entry, period).value, period)
        && old(clock) <= outcome.pass.entry <= outcome.pass.start <= outcome.pass.begin <= outcome.pass.end == clock
        && release <= outcome.pass.start && started == outcome.pass.start && modelStarted == outcome.pass.begin
        && !modelActive && modelCalls == cycles == old(cycles) + 1
      ensures outcome.Passed? ==>
        && Extends(old(cycleInterval), cycleInterval, old(cycles), old(started), outcome.pass.start)
        && Extends(old(modelInterval), modelInterval, old(cycles), old(modelStarted), outcome.pass.begin)
        && Counts(old(early), early, old(late), late, old(cycles), outcome.pass.begin - old(modelStarted) - period)
        && modelExecution == AddSample(old(modelExecution), outcome.pass.end - outcome.pass.begin)
      ensures outcome.Over? && outcome.finish.Overflowed? ==> old(clock) <= outcome.finish.entry
      ensures outcome.Over? && outcome.finish.Ended? ==>
        var ending := outcome.finish.ending;
        && !ending.Left? && Final(old(Counters()), ending, period) == Some(Counters())
        && old(clock) <= ending.at && early == old(early) && late == old(late)
        && modelInterval == old(modelInterval) && modelExecution == old(modelExecution) && modelCalls == old(modelCalls)
        && (if ending.Broken? then Extends(old(cycleInterval), cycleInterval, old(cycles), old(started), ending.start)
            else cycleInterval == old(cycleInterval))
    {
      hide Bounded, Grid, AddSample, Explained, Caught, Taken, Finished, WaitOver, NextFutureRelease, Runtime.Counts;
      hide Runtime.GridOk, Runtime.OnGrid, Runtime.ModelOk, Runtime.ClockOk;
      var result, entry, waiting := Wait();
      match result
      case Pending => return Over(CutOff);
      case SleepError => return Over(SleepFailed);
      case Overflow => return Over(Overflowed(entry));
      case Stopped => return Over(Ended(if waiting then StoppedWaiting(entry) else StoppedOnEntry(entry)));
      case Released =>
        if tape[at-1].background {
          if at == |tape| { return Over(CutOff); }
          PostStop();
          return Over(Ended(Broken(entry, started, clock)));
        }
        if at + 1 >= |tape| { return Over(CutOff); }
        Step();
        return Passed(Pass(entry, started, modelStarted, clock), at);
    }
  }

  /** What the final report prints. */
  datatype Report = Report(counters: Track, calls: nat, intervals: Stats, early: nat, late: nat, executions: Stats, cycleIntervals: Stats)

  /** The starts of the base-rate loop, the last one perhaps without a step. */
  function AllStarts(passes: seq<Pass>, ending: Ending): seq<int> {
    Starts(passes) + if ending.Broken? then [ending.start] else []
  }

  /** A model that asks to stop after `rounds` steps, whatever the outside answers. The passes and
      the end are those of the answers; they are a legal run, of which the report prints the
      counters, the interval statistics and the outlier counts. A run without report ends at a
      reading from which no release fits the 64-bit range, with a failed sleep, or for want of
      answers. */
  method RunRelease(period: int, spinUs: int, now: nat, tape: seq<Tick>, rounds: nat) returns (r: Report, course: Course)
    requires period > 0 && 0 <= spinUs <= 500 && Monotone(now, tape)
    ensures course == CourseOf(tape, 0, Track(now + period, 0, 0, 0, 0), period, spinUs, rounds)
    ensures Legal(now, period, course.passes) && Play(now, period, course.passes).Some? && |course.passes| <= rounds
    ensures course.finish.Overflowed? ==>
      && LastReading(now, course.passes) <= course.finish.entry
      && NextFutureRelease(Play(now, period, course.passes).value.next, course.finish.entry, period).None?
    ensures course.finish.Ended? ==> Reported(now, period, course.passes, course.finish.ending, r)
    ensures course.finish.Ended? ==> WellCounted(r.counters, now, period, course.passes, course.finish.ending)
    ensures course.finish.Ended? && course.finish.ending.Left? ==> |course.passes| == rounds
  {
    hide Bounded, Grid, AddSample, Caught, Taken, Finished, Final, Intervals, Executions, Earlies, Lates, CourseOf, PassOver, Monotone;
    hide Legal, Play, NextFutureRelease, AllStarts, WellCounted, Runtime.ClockOk, Runtime.GridOk, Runtime.OnGrid, Runtime.ModelOk;
    var rt := new Runtime(period, spinUs, now, tape);
    var passes: seq<Pass> := [];
    NoPasses(now, period);
    ghost var all := CourseOf(tape, 0, rt.Counters(), period, spinUs, rounds);
    assert all == Before(passes, all);
    while |passes| < rounds
      invariant fresh(rt) && rt.Valid() && !rt.halted && rt.period == period && rt.spinUs == spinUs && rt.tape == tape
      invariant |passes| <= rounds && Summed(rt, now, passes)
      invariant all == Before(passes, CourseOf(tape, rt.at, rt.Counters(), period, spinUs, rounds - |passes|))
    {
      CourseStep(tape, rt.at, rt.Counters(), period, spinUs, passes, rounds - |passes|);
      var outcome := NextPass(rt, now, passes);
      if outcome.Over? {
        if outcome.finish.Ended? { ReportWellCounted(now, period, passes, outcome.finish.ending, rt.Counters()); }
        return rt.Summary(), Course(passes, outcome.finish);
      }
      passes := passes + [outcome.pass];
    }
    CourseEnds(tape, rt.at, rt.Counters(), period, spinUs, passes);
    if rt.at >= |tape| { return rt.Summary(), Course(passes, CutOff); }
    LastPass(rt, now, passes);
    ReportWellCounted(now, period, passes, Left(rt.clock), rt.Counters());
    return rt.Summary(), Course(passes, Ended(Left(rt.clock)));
  }

  /** One pass, and what it does to the report. */
  method NextPass(rt: Runtime, ghost now: nat, ghost passes: seq<Pass>) returns (outcome: Outcome)
    requires rt.Valid() && !rt.halted && Summed(rt, now, passes)
    modifies rt
    ensures rt.Valid() && outcome == PassOver(rt.tape, old(rt.at), old(rt.Counters()), rt.period, rt.spinUs)
    ensures outcome.Passed? ==>
      && !rt.halted && rt.at == outcome.read && Summed(rt, now, passes + [outcome.pass])
      && rt.Counters() == Taken(Caught(old(rt.Counters()), outcome.pass.entry, rt.period).value, rt.period)
    ensures outcome.Over? && outcome.finish.Overflowed? ==> LastReading(now, passes) <= outcome.finish.entry
    ensures outcome.Over? && outcome.finish.Ended? ==> Reported(now, rt.period, passes, outcome.finish.ending, rt.Summary())
  {
    hide Bounded, Grid, AddSample, Caught, Taken, Finished, Final, Intervals, Executions, Earlies, Lates, PassOver, NextFutureRelease;
    hide Legal, Play, AllStarts, Starts, Begins, Runtime.ClockOk, Runtime.GridOk, Runtime.OnGrid, Runtime.ModelOk;
    outcome := rt.Round();
    if outcome.Passed? {
      PassAdds(now, rt.period, passes, outcome.pass);
      SumsAdd(passes, outcome.pass, rt.period);
    } else if outcome.finish.Ended? {
      EndAdds(passes, outcome.finish.ending);
    }
  }

  /** The model has asked to stop. */
  method LastPass(rt: Runtime, ghost now: nat, ghost passes: seq<Pass>)
    requires rt.Valid() && !rt.halted && rt.at < |rt.tape| && Summed(rt, now, passes)
    modifies rt
    ensures rt.clock == rt.tape[old(rt.at)].time
    ensures Reported(now, rt.period, passes, Left(rt.clock), rt.Summary())
  {
    hide Bounded, Grid, AddSample, Finished, Intervals, Executions, Earlies, Lates;
    hide Legal, Play, AllStarts, Starts, Begins, Runtime.ClockOk, Runtime.GridOk, Runtime.OnGrid, Runtime.ModelOk;
    rt.PostStop();
    EndAdds(passes, Left(rt.clock));
  }

  /** Passes that came before a course. */
  function Before(passes: seq<Pass>, rest: Course): Course { Course(passes + rest.passes, rest.finish) }

  lemma CourseStep(tape: seq<Tick>, i: nat, t: Track, period: int, spinUs: int, passes: seq<Pass>, rounds: nat)
    requires rounds > 0
    ensures
      var outcome := PassOver(tape, i, t, period, spinUs);
      Before(passes, CourseOf(tape, i, t, period, spinUs, rounds)) ==
        if outcome.Over? then Course(passes, outcome.finish)
        else
          Before(passes + [outcome.pass],
            CourseOf(tape, outcome.read, Taken(Caught(t, outcome.pass.entry, period).value, period), period, spinUs, rounds - 1))
  {
    hide PassOver, Caught, Taken;
    var outcome := PassOver(tape, i, t, period, spinUs);
    if outcome.Passed? {
      var rest := CourseOf(tape, outcome.read, Taken(Caught(t, outcome.pass.entry, period).value, period), period, spinUs, rounds - 1);
      assert passes + ([outcome.pass] + rest.passes) == passes + [outcome.pass] + rest.passes;
    } else {
      assert passes + [] == passes;
    }
  }

  lemma CourseEnds(tape: seq<Tick>, i: nat, t: Track, period: int, spinUs: int, passes: seq<Pass>)
    ensures Before(passes, CourseOf(tape, i, t, period, spinUs, 0)) == Course(passes, if i < |tape| then Ended(Left(tape[i].time)) else CutOff)
  {
    assert passes + [] == passes;
  }

  lemma NoPasses(now: nat, period: int)
    ensures Legal(now, period, []) && Play(now, period, []) == Some(Track(now + period, 0, 0, 0, 0))
    ensures Intervals([]) == NO_STATS && Executions([]) == NO_STATS && Earlies([], period) == Lates([], period) == 0
    ensures Starts([]) == [] && Begins([]) == []
  {}

  /** One more pass in the counters. */
  lemma PassAdds(now: nat, period: int, passes: seq<Pass>, pass: Pass)
    requires Legal(now, period, passes) && Play(now, period, passes).Some?
    requires Caught(Play(now, period, passes).value, pass.entry, period).Some?
    requires LastReading(now, passes) <= pass.entry <= pass.start <= pass.begin <= pass.end
    requires Taken(Caught(Play(now, period, passes).value, pass.entry, period).value, period).release <= pass.start
    ensures
      var more := passes + [pass];
      && Legal(now, period, more) && LastReading(now, more) == pass.end
      && Play(now, period, more) == Some(Taken(Caught(Play(now, period, passes).value, pass.entry, period).value, period))
  {
    hide Caught, Taken;
    assert (passes + [pass])[..|passes|] == passes;
  }

  /** One more time in the intervals. */
  lemma TimesAdd(times: seq<int>, x: int)
    ensures Runtime.Extends(Intervals(times), Intervals(times + [x]), |times|, if times == [] then 0 else times[|times|-1], x)
  {
    hide AddSample, Intervals;
    IntervalsNext(times, x);
  }

  lemma CountsAdd(times: seq<int>, x: int, period: int)
    ensures var more, last := times + [x], if times == [] then 0 else times[|times|-1];
      Runtime.Counts(Earlies(times, period), Earlies(more, period), Lates(times, period), Lates(more, period), |times|, x - last - period)
  {
    hide Early, Late;
    assert (times + [x])[..|times|] == times;
  }

  /** One more pass in the statistics. */
  lemma SumsAdd(passes: seq<Pass>, pass: Pass, period: int)
    ensures var more := passes + [pass];
      && Executions(more) == AddSample(Executions(passes), pass.end - pass.begin)
      && Runtime.Extends(Intervals(Starts(passes)), Intervals(Starts(more)), |passes|, LastStart(passes), pass.start)
      && Runtime.Extends(Intervals(Begins(passes)), Intervals(Begins(more)), |passes|, LastBegin(passes), pass.begin)
      && Runtime.Counts(Earlies(Begins(passes), period), Earlies(Begins(more), period),
          Lates(Begins(passes), period), Lates(Begins(more), period), |passes|, pass.begin - LastBegin(passes) - period)
  {
    hide AddSample, Intervals, Earlies, Lates, Runtime.Extends, Runtime.Counts;
    assert (passes + [pass])[..|passes|] == passes;
    assert Starts(passes + [pass]) == Starts(passes) + [pass.start] && Begins(passes + [pass]) == Begins(passes) + [pass.begin];
    TimesAdd(Starts(passes), pass.start);
    TimesAdd(Begins(passes), pass.begin);
    CountsAdd(Begins(passes), pass.begin, period);
  }

  function LastStart(passes: seq<Pass>): int { if passes == [] then 0 else passes[|passes|-1].start }

  function LastBegin(passes: seq<Pass>): int { if passes == [] then 0 else passes[|passes|-1].begin }

  /** The start that a broken pass still took. */
  lemma EndAdds(passes: seq<Pass>, ending: Ending)
    ensures !ending.Broken? ==> AllStarts(passes, ending) == Starts(passes)
    ensures ending.Broken? ==>
      Runtime.Extends(Intervals(Starts(passes)), Intervals(AllStarts(passes, ending)), |passes|, LastStart(passes), ending.start)
  {
    hide AddSample;
    if ending.Broken? { TimesAdd(Starts(passes), ending.start); }
  }

  /** The runtime after these passes, between two of them. */
  ghost predicate Summed(rt: Runtime, now: nat, passes: seq<Pass>)
    reads rt
  {
    && Legal(now, rt.period, passes) && Play(now, rt.period, passes) == Some(rt.Counters()) && rt.clock >= LastReading(now, passes)
    && rt.modelCalls == rt.cycles == |passes| && !rt.modelActive
    && rt.modelInterval == Intervals(Begins(passes)) && rt.modelExecution == Executions(passes)
    && rt.early == Earlies(Begins(passes), rt.period) && rt.late == Lates(Begins(passes), rt.period)
    && rt.cycleInterval == Intervals(Starts(passes))
    && (passes != [] ==> rt.started == LastStart(passes) && rt.modelStarted == LastBegin(passes))
  }

  /** The report is that of these passes and this ending. */
  ghost predicate Reported(now: nat, period: int, passes: seq<Pass>, ending: Ending, r: Report)
    requires Play(now, period, passes).Some?
  {
    && Final(Play(now, period, passes).value, ending, period) == Some(r.counters)
    && LastReading(now, passes) <= ending.at && r.calls == |passes|
    && r.intervals == Intervals(Begins(passes)) && r.executions == Executions(passes)
    && r.early == Earlies(Begins(passes), period) && r.late == Lates(Begins(passes), period)
    && r.cycleIntervals == Intervals(AllStarts(passes, ending))
  }
}
