/** Decoded events of `BufferedDaqPolicy`: timestamp unwrapping and the bounded sample queue.

    Target timestamps count modulo `modulus` nanoseconds. `Unwrap` is the decision taken in
    `on_daq_list`; the lemmas say when it recovers true time, and when it does not. */
module DaqSamples {
  import opened Common
  import DivMod

  /** The unwrapping state after at least one accepted event. */
  datatype Clock = Clock(raw: int, unwrapped: int, offset: int)
  datatype Verdict = Reordered(offset: int, wrapped: bool) | Accepted(clock: Clock, wrapped: bool)

  function Unwrap(last: Option<Clock>, offset: int, raw: int, modulus: nat): Verdict {
    match last
    case None => Accepted(Clock(raw, raw + offset, offset), false)
    case Some(c) =>
      if raw < c.raw && c.raw - raw <= modulus / 2 then Reordered(offset, false)
      else
        var wrapped := raw < c.raw;
        var next := if wrapped then offset + modulus else offset;
        if raw + next - c.unwrapped <= 0 then Reordered(next, wrapped)
        else Accepted(Clock(raw, raw + next, next), wrapped)
  }

  /** The clock shows true time `t` up to the constant `base`, with the raw value the target sent. */
  ghost predicate Exact(c: Clock, t: int, base: int, modulus: nat)
    requires modulus > 0
  {
    c.raw == t % modulus && c.unwrapped == t - base && c.offset == c.unwrapped - c.raw
  }

  /** Less than half the modulus ahead: accepted, and exact again, across any wrap. */
  lemma FreshIsExact(c: Clock, t: int, base: int, next: int, modulus: nat)
    requires modulus > 0 && Exact(c, t, base, modulus)
    requires 0 < next - t && 2 * (next - t) < modulus
    ensures var v := Unwrap(Some(c), c.offset, next % modulus, modulus);
      v.Accepted? && Exact(v.clock, next, base, modulus)
  {
    var d := next - t;
    assert t == t / modulus * modulus + t % modulus;
    if c.raw + d < modulus {
      DivMod.Unique(next, t / modulus, c.raw + d, modulus);
    } else {
      assert (t / modulus + 1) * modulus == t / modulus * modulus + modulus;
      DivMod.Unique(next, t / modulus + 1, c.raw + d - modulus, modulus);
    }
  }

  /** A repeated or late event of any age is rejected exactly when the raw time it arrives with is
      at most half the modulus behind that of the newest event; else it is taken for a later one. */
  lemma StaleRejectedIff(c: Clock, t: int, base: int, stale: int, modulus: nat)
    requires modulus > 0 && Exact(c, t, base, modulus) && stale <= t
    ensures
      var v := Unwrap(Some(c), c.offset, stale % modulus, modulus);
      && (v == Reordered(c.offset, false) <==> 0 <= t % modulus - stale % modulus <= modulus / 2)
      && (v != Reordered(c.offset, false) ==> v.Accepted? && v.clock.unwrapped > t - base)
  {
  }

  /** In terms of time: an event at most half the modulus old is rejected exactly when no wrap of
      the target counter lies between it and the newest event. */
  lemma RecentlyStaleRejectedIff(c: Clock, t: int, base: int, stale: int, modulus: nat)
    requires modulus > 0 && Exact(c, t, base, modulus)
    requires stale <= t && t - stale <= modulus / 2
    ensures Unwrap(Some(c), c.offset, stale % modulus, modulus) == Reordered(c.offset, false) <==> stale / modulus == t / modulus
    ensures stale / modulus != t / modulus ==>
      var v := Unwrap(Some(c), c.offset, stale % modulus, modulus);
      v.Accepted? && v.clock.unwrapped == stale - base + modulus
  {
    var d := t - stale;
    assert t == t / modulus * modulus + t % modulus;
    assert (t / modulus - 1) * modulus == t / modulus * modulus - modulus;
    if d <= c.raw {
      DivMod.Unique(stale, t / modulus, c.raw - d, modulus);
    } else {
      DivMod.Unique(stale, t / modulus - 1, c.raw - d + modulus, modulus);
    }
  }

  /** Just after a wrap a late event is taken for a future one: with modulus 256, true time 261
      followed by true time 250 is recorded as 506. */
  lemma StaleAcrossWrap()
    ensures var c := Clock(5, 261, 256);
      Exact(c, 261, 0, 256) && Unwrap(Some(c), c.offset, 250 % 256, 256) == Accepted(Clock(250, 506, 256), false)
  {
    DivMod.Unique(261, 1, 5, 256);
    DivMod.Unique(250, 0, 250, 256);
  }

  /** Without any wrap in between, an event more than half the modulus old is taken for a future
      one too: with modulus 256, true time 250 followed by true time 10 is recorded as 266. */
  lemma StaleByMoreThanHalf()
    ensures var c := Clock(250, 250, 0);
      Exact(c, 250, 0, 256) && Unwrap(Some(c), c.offset, 10 % 256, 256) == Accepted(Clock(10, 266, 256), true)
  {
    DivMod.Unique(250, 0, 250, 256);
    DivMod.Unique(10, 0, 10, 256);
  }

  /** An event at `t` is what unwrapping was built for, when the newest accepted one was at `newest`:
      less than half the modulus later, or late with a raw time at most half the modulus behind. */
  ghost predicate IsTimely(newest: int, t: int, modulus: nat)
    requires modulus > 0
  {
    || (0 < t - newest && 2 * (t - newest) < modulus)
    || (t <= newest && 0 <= newest % modulus - t % modulus <= modulus / 2)
  }

  lemma TimelyVerdict(c: Clock, newest: int, base: int, t: int, modulus: nat)
    requires modulus > 0 && Exact(c, newest, base, modulus) && IsTimely(newest, t, modulus)
    ensures var v := Unwrap(Some(c), c.offset, t % modulus, modulus);
      if t > newest then v.Accepted? && Exact(v.clock, t, base, modulus) && v.clock.unwrapped == t - base
      else v == Reordered(c.offset, false)
  {
    if t > newest {
      FreshIsExact(c, newest, base, t, modulus);
    } else {
      StaleRejectedIff(c, newest, base, t, modulus);
    }
  }

  lemma FirstExact(t: int, raw: int, modulus: nat)
    requires modulus > 0 && raw == t % modulus
    ensures Unwrap(None, 0, raw, modulus) == Accepted(Clock(raw, raw, 0), false)
    ensures Exact(Clock(raw, raw, 0), t, t - raw, modulus)
  {}

  datatype Sample = Sample(timestamp: real, values: seq<real>)

  /** Every sample carries its true time since `first`. */
  ghost predicate Stamped(s: seq<Sample>, times: seq<int>, first: int) {
    |times| == |s| && forall i :: 0 <= i < |s| ==> s[i].timestamp == Seconds(times[i] - first)
  }

  lemma NothingStamped(s: seq<Sample>, times: seq<int>, first: int)
    requires s == [] && times == []
    ensures Stamped(s, times, first)
  {}

  lemma StampsRemove(a: seq<Sample>, x: Sample, b: seq<Sample>, times: seq<int>, first: int)
    requires Stamped(a + [x] + b, times, first)
    ensures Stamped(a + b, times[..|a|] + times[|a| + 1..], first)
  {
    var s, r := a + [x] + b, a + b;
    forall i | 0 <= i < |r| ensures r[i] == s[if i < |a| then i else i + 1] {}
  }

  lemma StampsAdd(s: seq<Sample>, x: Sample, times: seq<int>, t: int, first: int)
    requires Stamped(s, times, first) && x.timestamp == Seconds(t - first)
    ensures Stamped(s + [x], times + [t], first)
  {}

  ghost predicate TimesIncrease(s: seq<Sample>) { forall i, j :: 0 <= i < j < |s| ==> s[i].timestamp < s[j].timestamp }

  ghost predicate AllBefore(s: seq<Sample>, t: real) { forall i :: 0 <= i < |s| ==> s[i].timestamp <= t }

  ghost predicate AllEarlier(s: seq<Sample>, t: real) { forall i :: 0 <= i < |s| ==> s[i].timestamp < t }

  lemma RawInRange(t: int, modulus: nat)
    requires modulus > 0
    ensures 0 <= t % modulus < modulus
  {}

  lemma LaterKeeps(s: seq<Sample>, last: Option<Clock>, clock: Clock, origin: Option<int>)
    requires last.Some? && origin.Some? ==>
      clock.unwrapped > last.value.unwrapped && AllBefore(s, Seconds(last.value.unwrapped - origin.value))
    ensures last.Some? && origin.Some? ==>
      AllEarlier(s, Seconds(clock.unwrapped - origin.value)) && AllBefore(s, Seconds(clock.unwrapped - origin.value))
  {
    if last.Some? && origin.Some? {
      var a, b := Seconds(last.value.unwrapped - origin.value), Seconds(clock.unwrapped - origin.value);
      assert a < b;
      forall i | 0 <= i < |s| ensures s[i].timestamp < b { assert s[i].timestamp <= a; }
    }
  }

  lemma NothingEarlier(s: seq<Sample>, t: real)
    requires s == []
    ensures TimesIncrease(s) && AllEarlier(s, t) && AllBefore(s, t)
  {}

  lemma PushIncreases(s: seq<Sample>, x: Sample)
    requires TimesIncrease(s) && AllEarlier(s, x.timestamp)
    ensures TimesIncrease(s + [x]) && AllBefore(s + [x], x.timestamp)
  {}

  lemma RemoveKeepsIncrease(a: seq<Sample>, b: seq<Sample>, x: Sample, t: real)
    requires TimesIncrease(a + [x] + b) && AllBefore(a + [x] + b, t)
    ensures TimesIncrease(a + b) && AllBefore(a + b, t)
    ensures forall u :: AllEarlier(a + [x] + b, u) ==> AllEarlier(a + b, u)
  {
    var s, r := a + [x] + b, a + b;
    forall i | 0 <= i < |r| ensures r[i] == s[if i < |a| then i else i + 1] {}
  }

  /** What the steps so far come to: the clock, the samples and the counts. */
  datatype Intake = Intake(last: Option<Clock>, origin: Option<int>, flow: Flow, received: nat, invalid: nat, wraps: nat, reorders: nat)

  const NO_INTAKE := Intake(None, None, Flow([], [], 0), 0, 0, 0, 0)

  function OffsetOf(last: Option<Clock>): int { if last.Some? then last.value.offset else 0 }

  /** The raw time of an event is judged: it is a late one, or the clock moves on. */
  function Timed(s: Intake, raw: int, modulus: nat): Intake {
    var v := Unwrap(s.last, OffsetOf(s.last), raw, modulus);
    var u := s.(wraps := s.wraps + if v.wrapped then 1 else 0);
    if v.Reordered? then u.(reorders := s.reorders + 1)
    else u.(last := Some(v.clock), origin := if s.origin.None? then Some(v.clock.unwrapped) else s.origin)
  }

  /** An event at true time `t` arrives with the raw time of the target's counter. */
  function Arrived(s: Intake, t: int, payload: seq<real>, capacity: nat, modulus: nat, width: nat): Intake
    requires modulus > 0
  {
    var u := Timed(s, t % modulus, modulus);
    if u.reorders > s.reorders || u.last.None? || u.origin.None? then u
    else if |payload| < width then u.(invalid := u.invalid + 1)
    else u.(received := u.received + 1, flow := Queued(s.flow, Sample(Seconds(u.last.value.unwrapped - u.origin.value), payload[..width]), capacity))
  }

  /** One step, timely or not. */
  function Takes(s: Intake, step: Step, capacity: nat, modulus: nat, width: nat): Intake
    requires modulus > 0
  {
    match step
    case Read(limit) => s.(flow := ReadOff(s.flow, limit))
    case Decoded(t, payload) => Arrived(s, t, payload, capacity, modulus, width)
  }

  function IntakeOf(steps: seq<Step>, capacity: nat, modulus: nat, width: nat): Intake
    requires modulus > 0
  {
    if steps == [] then NO_INTAKE
    else Takes(IntakeOf(steps[..|steps|-1], capacity, modulus, width), steps[|steps|-1], capacity, modulus, width)
  }

  class SampleQueue {
    const capacity: nat
    const modulus: nat
    const width: nat  // number of signal names
    var queue: seq<Sample>
    var last: Option<Clock>
    var wrapOffset: int
    var origin: Option<int>
    var received: nat
    var dropped: nat
    var invalid: nat
    var wraps: nat
    var reorders: nat
    ghost var drained: seq<Sample>   // everything ever drained, in order
    ghost var trueTimes: Option<(int, int)>  // first and newest accepted true event times
    ghost var timely: bool           // every event so far was fresh or rejectably stale
    ghost var times: seq<int>        // true event times of the samples drained and queued

    ghost predicate Valid()
      reads this
    {
      && capacity > 0 && modulus > 0
      && |queue| <= capacity
      && received == |drained| + |queue| + dropped
      && (last.Some? <==> origin.Some?)
      && (last.None? ==> drained == [] && queue == [] && trueTimes.None? && wrapOffset == 0)
      && (last.Some? ==>
        && wrapOffset == last.value.offset == last.value.unwrapped - last.value.raw
        && 0 <= last.value.raw < modulus && trueTimes.Some?
        && TimesIncrease(drained + queue)
        && AllBefore(drained + queue, Seconds(last.value.unwrapped - origin.value)))
      && (last.Some? && timely ==>
        Exact(last.value, trueTimes.value.1, trueTimes.value.0 - origin.value, modulus))
      && |times| == |drained| + |queue|
      && (last.Some? && timely ==> Stamped(drained + queue, times, trueTimes.value.0))
    }

    constructor (capacity: nat, modulus: nat, width: nat)
      requires capacity > 0 && modulus > 0
      ensures Valid() && this.capacity == capacity && this.modulus == modulus && this.width == width
      ensures last.None? && received == 0 && dropped == 0 && drained == [] && queue == [] && timely && times == []
      ensures Taken() == NO_INTAKE
    {
      this.capacity, this.modulus, this.width := capacity, modulus, width;
      queue, last, wrapOffset, origin, received, dropped, invalid, wraps, reorders := [], None, 0, None, 0, 0, 0, 0, 0;
      drained, trueTimes, timely, times := [], None, true, [];
    }

    ghost function Taken(): Intake
      reads this
    {
      Intake(last, origin, Flowing(), received, invalid, wraps, reorders)
    }

    /** True time `t` is what unwrapping was built for, given the newest accepted event. */
    ghost predicate Timely(t: int)
      requires modulus > 0
      reads this
    {
      trueTimes.None? || IsTimely(trueTimes.value.1, t, modulus)
    }

    /** The timestamp half of `on_daq_list`, for an event that really happened at `t` and arrived as `raw`. */
    method TakeTime(raw: int, ghost t: int) returns (accepted: bool)
      requires Valid() && raw == t % modulus
      modifies this`last, this`wrapOffset, this`origin, this`wraps, this`reorders, this`trueTimes, this`timely
      ensures Valid()
      ensures Taken() == Timed(old(Taken()), raw, modulus) && accepted == (reorders == old(reorders))
      ensures timely == (old(timely) && old(Timely(t)))
      ensures old(last.None?) ==> accepted && trueTimes == Some((t, t))
      ensures timely && old(trueTimes.Some?) ==> (accepted <==> t > old(trueTimes).value.1)
      ensures timely && old(trueTimes.Some?) && accepted ==> trueTimes == Some((old(trueTimes).value.0, t))
      ensures accepted ==>
        && last.Some? && last.value.raw == raw
        && AllEarlier(drained + queue, Seconds(last.value.unwrapped - origin.value))
        && (old(last.Some?) ==> origin == old(origin) && last.value.unwrapped > old(last).value.unwrapped)
      ensures accepted && timely ==> last.value.unwrapped - origin.value == t - trueTimes.value.0
      ensures trueTimes.Some?
      ensures !accepted ==> last == old(last) && origin == old(origin) && trueTimes == old(trueTimes) && reorders == old(reorders) + 1
    {
      hide TimesIncrease, AllBefore, AllEarlier, Exact, Unwrap, IsTimely, Stamped, Seconds;
      RawInRange(t, modulus);
      if last.Some? && timely && Timely(t) {
        TimelyVerdict(last.value, trueTimes.value.1, trueTimes.value.0 - origin.value, t, modulus);
      }
      FirstExact(t, raw, modulus);
      timely := timely && Timely(t);
      var clock;
      accepted, clock := UnwrapRaw(raw);
      if accepted { MoveClock(clock, t); }
    }

    /** An accepted event's clock is the newest one. */
    method MoveClock(clock: Clock, ghost t: int)
      requires capacity > 0 && modulus > 0 && |queue| <= capacity && received == |drained| + |queue| + dropped && |times| == |drained| + |queue|
      requires (last.Some? <==> origin.Some?) && (last.Some? <==> trueTimes.Some?)
      requires last.None? ==> drained == [] && queue == []
      requires last.Some? ==>
        && TimesIncrease(drained + queue) && AllBefore(drained + queue, Seconds(last.value.unwrapped - origin.value))
        && clock.unwrapped > last.value.unwrapped
      requires wrapOffset == clock.offset == clock.unwrapped - clock.raw && 0 <= clock.raw < modulus
      requires timely ==>
        Exact(clock, t, (if trueTimes.None? then t - clock.unwrapped else trueTimes.value.0 - origin.value), modulus)
      requires timely && last.Some? ==> Stamped(drained + queue, times, trueTimes.value.0)
      modifies this`last, this`origin, this`trueTimes
      ensures Valid() && last == Some(clock)
      ensures origin == if old(origin).None? then Some(clock.unwrapped) else old(origin)
      ensures trueTimes == Some((if old(trueTimes).None? then t else old(trueTimes).value.0, t))
      ensures AllEarlier(drained + queue, Seconds(last.value.unwrapped - origin.value))
    {
      hide TimesIncrease, AllBefore, AllEarlier, Exact, Stamped, Seconds;
      LaterKeeps(drained + queue, last, clock, origin);
      if last.None? { NothingEarlier(drained + queue, Seconds(0)); NothingStamped(drained + queue, times, t); }
      last := Some(clock);
      if origin.None? { origin := Some(clock.unwrapped); }
      trueTimes := Some((if trueTimes.None? then t else trueTimes.value.0, t));
    }

    /** The comparisons on raw and unwrapped time, and the counters they keep. */
    method UnwrapRaw(raw: int) returns (accepted: bool, clock: Clock)
      requires 0 <= raw < modulus && (last.None? ==> wrapOffset == 0)
      requires last.Some? ==> wrapOffset == last.value.offset == last.value.unwrapped - last.value.raw && 0 <= last.value.raw < modulus
      modifies this`wrapOffset, this`wraps, this`reorders
      ensures var v := Unwrap(old(last), old(wrapOffset), raw, modulus);
        && accepted == v.Accepted? && (accepted ==> clock == v.clock && v.clock.offset == wrapOffset)
        && wraps == old(wraps) + (if v.wrapped then 1 else 0)
      ensures accepted ==> clock.raw == raw && clock.unwrapped == raw + wrapOffset
      ensures accepted && last.Some? ==> clock.unwrapped > last.value.unwrapped
      ensures !accepted ==> wrapOffset == old(wrapOffset) && reorders == old(reorders) + 1
      ensures accepted ==> reorders == old(reorders)
      ensures !accepted ==> !Unwrap(old(last), old(wrapOffset), raw, modulus).wrapped && wraps == old(wraps)
    {
      clock := Clock(raw, 0, 0);
      if last.Some? && raw < last.value.raw {
        if last.value.raw - raw > modulus / 2 {
          wrapOffset, wraps := wrapOffset + modulus, wraps + 1;
        } else {
          reorders := reorders + 1;
          return false, clock;
        }
      }
      var unwrapped := raw + wrapOffset;
      if last.Some? && unwrapped - last.value.unwrapped <= 0 {
        reorders := reorders + 1;
        return false, clock;
      }
      accepted, clock := true, Clock(raw, unwrapped, wrapOffset);
    }

    /** The queue half: oldest out when full, newest in. */
    method Store(payload: seq<real>, ghost t: int)
      requires Valid() && last.Some? && |payload| >= width
      requires timely ==> last.value.unwrapped - origin.value == t - trueTimes.value.0
      requires AllEarlier(drained + queue, Seconds(last.value.unwrapped - origin.value))
      modifies this`queue, this`dropped, this`received, this`times
      ensures Valid() && received == old(received) + 1
      ensures queue == Newest(old(queue) + [Sample(Seconds(last.value.unwrapped - origin.value), payload[..width])], capacity)
      ensures queue == (if |old(queue)| == capacity then old(queue)[1..] else old(queue))
        + [Sample(Seconds(last.value.unwrapped - origin.value), payload[..width])]
      ensures dropped == old(dropped) + if |old(queue)| == capacity then 1 else 0
      ensures forall x :: x in times ==> x in old(times) || x == t
    {
      hide TimesIncrease, AllBefore, AllEarlier, Exact, Stamped, Seconds;
      ghost var now := Seconds(last.value.unwrapped - origin.value);
      if |queue| == capacity {
        assert drained + queue == drained + [queue[0]] + queue[1..];
        RemoveKeepsIncrease(drained, queue[1..], queue[0], now);
        if timely { StampsRemove(drained, queue[0], queue[1..], times, trueTimes.value.0); }
        times := times[..|drained|] + times[|drained| + 1..];
        dropped, queue := dropped + 1, queue[1..];
      }
      var sample := Sample(Seconds(last.value.unwrapped - origin.value), payload[..width]);
      PushIncreases(drained + queue, sample);
      if timely { StampsAdd(drained + queue, sample, times, t, trueTimes.value.0); }
      times := times + [t];
      assert drained + queue + [sample] == drained + (queue + [sample]);
      queue, received := queue + [sample], received + 1;
    }

    /** `on_daq_list`, for an event that really happened at `t` and arrived as `raw`. While every
        event is timely, later events are stored with their exact time since the first one and
        stale ones are dropped, over any number of wraps; the newest samples stay in the queue. */
    method OnDaqList(raw: int, payload: seq<real>, ghost t: int) returns (stored: bool)
      requires Valid() && raw == t % modulus
      modifies this
      ensures Valid() && drained == old(drained)
      ensures Taken() == Arrived(old(Taken()), t, payload, capacity, modulus, width)
      ensures timely == (old(timely) && old(Timely(t)))
      ensures timely && old(trueTimes.Some?) && t <= old(trueTimes).value.1 ==>
        !stored && last == old(last) && trueTimes == old(trueTimes)
      ensures trueTimes.Some?
      ensures timely && (old(trueTimes.None?) || t > old(trueTimes).value.1) ==>
        && trueTimes == Some((if old(trueTimes.None?) then t else old(trueTimes).value.0, t))
        && stored == (|payload| >= width)
      ensures stored ==>
        && received == old(received) + 1
        && dropped == old(dropped) + (if |old(queue)| == capacity then 1 else 0)
        && |queue| > 0 && queue == Newest(old(queue) + [queue[|queue|-1]], capacity)
        && |payload| >= width && queue[|queue|-1].values == payload[..width]
        && (timely ==> queue[|queue|-1].timestamp == Seconds(t - trueTimes.value.0))
      ensures !stored ==> queue == old(queue) && received == old(received) && dropped == old(dropped)
      ensures forall x :: x in times ==> x in old(times) || x == t
    {
      hide TimesIncrease, AllBefore, AllEarlier, Exact, Unwrap, IsTimely, Stamped;
      var accepted := TakeTime(raw, t);
      if !accepted { return false; }
      if |payload| < width {
        invalid := invalid + 1;
        return false;
      }
      Store(payload, t);
      stored := true;
    }

    /** `drain`: the oldest samples, at most `limit`; a limit below one is an error. */
    method Drain(limit: int) returns (r: Option<seq<Sample>>)
      requires Valid()
      modifies this`queue, this`drained
      ensures Valid()
      ensures limit < 1 ==> r.None? && queue == old(queue) && drained == old(drained)
      ensures limit >= 1 ==>
        && r.Some? && |r.value| == (if limit <= |old(queue)| then limit else |old(queue)|)
        && r.value + queue == old(queue) && drained == old(drained) + r.value
    {
      hide TimesIncrease, AllBefore, AllEarlier, Exact;
      if limit < 1 { return None; }
      var count := if limit <= |queue| then limit else |queue|;
      var taken := queue[..count];
      assert drained + queue == (drained + taken) + queue[count..];
      queue, drained := queue[count..], drained + taken;
      r := Some(taken);
    }

    ghost function Flowing(): Flow
      reads this`drained, this`queue, this`dropped
    {
      Flow(drained, queue, dropped)
    }

    /** An event or a read, with what it hands to the reader. */
    method Perform(step: Step) returns (more: seq<Sample>)
      requires Valid()
      modifies this
      ensures Valid() && drained == old(drained) + more
      ensures Taken() == Takes(old(Taken()), step, capacity, modulus, width)
      ensures timely == (old(timely) && (step.Decoded? ==> old(Timely(step.t))))
      ensures step.Read? ==> trueTimes == old(trueTimes) && received == old(received)
      ensures step.Decoded? ==> trueTimes.Some?
      ensures timely && step.Decoded? ==>
        && trueTimes == (if old(trueTimes).None? then Some((step.t, step.t))
                         else if step.t > old(trueTimes).value.1 then Some((old(trueTimes).value.0, step.t)) else old(trueTimes))
        && received == old(received)
          + (if Later(NewestOf(old(trueTimes)), step.t) && |step.payload| >= width then 1 else 0)
      ensures timely ==>
        Flowing() == FlowsOn(old(Flowing()), FirstOf(old(trueTimes)), NewestOf(old(trueTimes)), step, capacity, width)
      ensures forall x :: x in times ==> x in old(times) || (step.Decoded? && x == step.t)
    {
      hide AllBefore, AllEarlier, Exact, Unwrap, IsTimely, TimesIncrease, Stamped;
      more := [];
      match step
      case Decoded(t, payload) => var stored := OnDaqList(t % modulus, payload, t);
      case Read(limit) =>
        var r := Drain(limit);
        if r.Some? { more := r.value; }
    }
  }

  datatype Step = Decoded(t: int, payload: seq<real>) | Read(limit: int)

  /** True time of the first event of a run. */
  function FirstTime(steps: seq<Step>): Option<int> {
    if steps == [] then None
    else
      var before := FirstTime(steps[..|steps|-1]);
      if before.None? && steps[|steps|-1].Decoded? then Some(steps[|steps|-1].t) else before
  }

  /** True time of the latest event of a run. */
  function NewestTime(steps: seq<Step>): (r: Option<int>)
    ensures r.Some? <==> FirstTime(steps).Some?
  {
    if steps == [] then None
    else
      var before, step := NewestTime(steps[..|steps|-1]), steps[|steps|-1];
      if step.Decoded? && (before.None? || step.t > before.value) then Some(step.t) else before
  }

  /** How many events of a run come after all earlier ones and carry a value for every signal. */
  function FreshEvents(steps: seq<Step>, width: nat): nat {
    if steps == [] then 0
    else
      var front, step := steps[..|steps|-1], steps[|steps|-1];
      var counts := step.Decoded? && (NewestTime(front).None? || step.t > NewestTime(front).value) && |step.payload| >= width;
      FreshEvents(front, width) + if counts then 1 else 0
  }

  function FirstOf(times: Option<(int, int)>): Option<int> { if times.Some? then Some(times.value.0) else None }

  function NewestOf(times: Option<(int, int)>): Option<int> { if times.Some? then Some(times.value.1) else None }

  /** What a run of timely events comes to: the samples drained and queued, and the number dropped. */
  datatype Flow = Flow(drained: seq<Sample>, queued: seq<Sample>, dropped: nat)

  /** An event later than all before, with a value for every signal, is queued with its time since
      the first event; a full queue loses its oldest; a read takes the oldest. */
  function FlowsOn(f: Flow, first: Option<int>, newest: Option<int>, step: Step, capacity: nat, width: nat): Flow {
    match step
    case Read(limit) => ReadOff(f, limit)
    case Decoded(t, payload) =>
      if |payload| < width || (newest.Some? && t <= newest.value) then f
      else Queued(f, Sample(Seconds(t - (if first.Some? then first.value else t)), payload[..width]), capacity)
  }

  /** A read takes the oldest samples, at most `limit`. */
  function ReadOff(f: Flow, limit: int): Flow {
    var n := if limit < 1 then 0 else Min(limit, |f.queued|);
    Flow(f.drained + f.queued[..n], f.queued[n..], f.dropped)
  }

  /** A new sample; a full queue loses its oldest. */
  function Queued(f: Flow, sample: Sample, capacity: nat): Flow {
    var more := f.queued + [sample];
    Flow(f.drained, Newest(more, capacity), f.dropped + if |more| > capacity then 1 else 0)
  }

  function Flows(steps: seq<Step>, capacity: nat, width: nat): Flow {
    if steps == [] then Flow([], [], 0)
    else
      var front := steps[..|steps|-1];
      FlowsOn(Flows(front, capacity, width), FirstTime(front), NewestTime(front), steps[|steps|-1], capacity, width)
  }

  /** Every event of the run is what unwrapping was built for. */
  ghost predicate TimelyRun(steps: seq<Step>, modulus: nat)
    requires modulus > 0
  {
    steps == []
    || (TimelyRun(steps[..|steps|-1], modulus)
      && (steps[|steps|-1].Decoded? && NewestTime(steps[..|steps|-1]).Some? ==>
        IsTimely(NewestTime(steps[..|steps|-1]).value, steps[|steps|-1].t, modulus)))
  }

  /** Every event comes after all earlier ones, at most one period after the latest. */
  ghost predicate BackToBack(steps: seq<Step>, periodNs: nat) {
    steps == []
    || (BackToBack(steps[..|steps|-1], periodNs)
      && (steps[|steps|-1].Decoded? && NewestTime(steps[..|steps|-1]).Some? ==>
        0 < steps[|steps|-1].t - NewestTime(steps[..|steps|-1]).value <= periodNs))
  }

  /** The guard of `prepare` is enough: when the target counter wraps in more than two event
      periods, every run of back-to-back events is timely. */
  lemma {:induction false} PrepareGuardSuffices(steps: seq<Step>, periodNs: nat, modulus: nat)
    requires modulus > 2 * periodNs && BackToBack(steps, periodNs)
    ensures TimelyRun(steps, modulus)
  {
    if steps != [] { PrepareGuardSuffices(steps[..|steps|-1], periodNs, modulus); }
  }

  /** Every sample that the run received, whether drained, queued or dropped since. */
  function Samples(steps: seq<Step>, capacity: nat, modulus: nat, width: nat): seq<Sample>
    requires modulus > 0
  {
    if steps == [] then []
    else
      var front, step := steps[..|steps|-1], steps[|steps|-1];
      Samples(front, capacity, modulus, width)
        + SampleOf(IntakeOf(front, capacity, modulus, width), IntakeOf(steps, capacity, modulus, width), step, width)
  }

  /** The sample that this step adds, if it counts one. */
  function SampleOf(before: Intake, now: Intake, step: Step, width: nat): seq<Sample> {
    if step.Decoded? && now.received > before.received && now.last.Some? && now.origin.Some? && |step.payload| >= width
    then [Sample(Seconds(now.last.value.unwrapped - now.origin.value), step.payload[..width])] else []
  }

  lemma StepHolds(s: Intake, all: seq<Sample>, step: Step, capacity: nat, modulus: nat, width: nat)
    requires modulus > 0 && capacity > 0 && |all| == s.received && HoldsNewest(s.flow, all, capacity)
    ensures
      var t := Takes(s, step, capacity, modulus, width);
      var more := all + SampleOf(s, t, step, width);
      |more| == t.received && HoldsNewest(t.flow, more, capacity)
  {
    hide Unwrap, Seconds, Queued, ReadOff, HoldsNewest;
    var t := Takes(s, step, capacity, modulus, width);
    assert all + [] == all;
    match step
    case Read(limit) => ReadHolds(s.flow, all, limit, capacity);
    case Decoded(_, payload) =>
      if t.received > s.received {
        QueuedHolds(s.flow, all, Sample(Seconds(t.last.value.unwrapped - t.origin.value), payload[..width]), capacity);
      }
  }

  /** Every sample is drained, queued or dropped, and the queue holds the newest. */
  ghost predicate HoldsNewest(f: Flow, all: seq<Sample>, capacity: nat) {
    && |all| == |f.drained| + |f.queued| + f.dropped && |f.queued| <= capacity
    && f.queued == all[|all| - |f.queued|..]
  }

  lemma QueuedHolds(f: Flow, all: seq<Sample>, sample: Sample, capacity: nat)
    requires HoldsNewest(f, all, capacity) && capacity > 0
    ensures HoldsNewest(Queued(f, sample, capacity), all + [sample], capacity)
  {}

  lemma ReadHolds(f: Flow, all: seq<Sample>, limit: int, capacity: nat)
    requires HoldsNewest(f, all, capacity)
    ensures HoldsNewest(ReadOff(f, limit), all, capacity)
  {}

  /** In any run the queue holds the newest samples received: a full queue loses its oldest. */
  lemma {:induction false} QueueHoldsNewest(steps: seq<Step>, capacity: nat, modulus: nat, width: nat)
    requires modulus > 0 && capacity > 0
    ensures
      var all, s := Samples(steps, capacity, modulus, width), IntakeOf(steps, capacity, modulus, width);
      |all| == s.received && HoldsNewest(s.flow, all, capacity)
  {
    if steps != [] {
      hide Takes, SampleOf, HoldsNewest;
      var front := steps[..|steps|-1];
      QueueHoldsNewest(front, capacity, modulus, width);
      StepHolds(IntakeOf(front, capacity, modulus, width), Samples(front, capacity, modulus, width), steps[|steps|-1],
        capacity, modulus, width);
    }
  }

  /** How many events there were, of any kind. */
  function Events(steps: seq<Step>): nat {
    if steps == [] then 0 else Events(steps[..|steps|-1]) + if steps[|steps|-1].Decoded? then 1 else 0
  }

  /** Every event of any run is received, invalid or late, and counted once. */
  lemma {:induction false} EveryEventCounted(steps: seq<Step>, capacity: nat, modulus: nat, width: nat)
    requires modulus > 0
    ensures var s := IntakeOf(steps, capacity, modulus, width);
      s.received + s.invalid + s.reorders == Events(steps) && (s.last.Some? <==> s.origin.Some?)
  {
    if steps != [] {
      hide Unwrap, Queued, ReadOff;
      EveryEventCounted(steps[..|steps|-1], capacity, modulus, width);
    }
  }

  /** The clock of a timely run shows true time, and the offset is that of the wraps counted. */
  ghost predicate ClockExact(s: Intake, first: Option<int>, newest: Option<int>, modulus: nat)
    requires modulus > 0
  {
    && (s.last.None? <==> first.None?) && (newest.None? <==> first.None?)
    && (s.last.None? ==> s.wraps == 0)
    && (s.last.Some? ==>
      Exact(s.last.value, newest.value, first.value - first.value % modulus, modulus) && s.wraps * modulus == s.last.value.offset)
  }

  /** A verdict's offset grows by the modulus exactly when a wrap was seen. */
  lemma OffsetWraps(c: Clock, raw: int, modulus: nat)
    ensures var v := Unwrap(Some(c), c.offset, raw, modulus);
      v.Accepted? ==> v.clock.offset == c.offset + (if v.wrapped then modulus else 0)
  {}

  lemma EventKeepsClock(s: Intake, first: Option<int>, newest: Option<int>, t: int, modulus: nat)
    requires modulus > 0 && ClockExact(s, first, newest, modulus) && (newest.Some? ==> IsTimely(newest.value, t, modulus))
    ensures ClockExact(Timed(s, t % modulus, modulus), Some(if first.None? then t else first.value),
      if Later(newest, t) then Some(t) else newest, modulus)
  {
    hide IsTimely, Exact, Unwrap;
    FirstExact(t, t % modulus, modulus);
    if newest.Some? {
      TimelyVerdict(s.last.value, newest.value, first.value - first.value % modulus, t, modulus);
      OffsetWraps(s.last.value, t % modulus, modulus);
      assert (s.wraps + 1) * modulus == s.wraps * modulus + modulus;
    }
  }

  lemma {:induction false} TimelyClock(steps: seq<Step>, capacity: nat, modulus: nat, width: nat)
    requires modulus > 0 && TimelyRun(steps, modulus)
    ensures ClockExact(IntakeOf(steps, capacity, modulus, width), FirstTime(steps), NewestTime(steps), modulus)
  {
    if steps != [] {
      hide ClockExact, Timed, Queued, ReadOff, IsTimely;
      var front, step := steps[..|steps|-1], steps[|steps|-1];
      TimelyClock(front, capacity, modulus, width);
      var s := IntakeOf(front, capacity, modulus, width);
      var u := s;
      if step.Decoded? {
        EventKeepsClock(s, FirstTime(front), NewestTime(front), step.t, modulus);
        u := Timed(s, step.t % modulus, modulus);
      }
      SameClock(u, IntakeOf(steps, capacity, modulus, width), FirstTime(steps), NewestTime(steps), modulus);
    }
  }

  lemma SameClock(s: Intake, u: Intake, first: Option<int>, newest: Option<int>, modulus: nat)
    requires modulus > 0 && ClockExact(s, first, newest, modulus) && u.last == s.last && u.wraps == s.wraps
    ensures ClockExact(u, first, newest, modulus)
  {}

  /** In a timely run the wraps counted are those that the target's counter made between the first
      and the newest event, however many there were. */
  lemma WrapsAreExact(steps: seq<Step>, capacity: nat, modulus: nat, width: nat)
    requires modulus > 0 && TimelyRun(steps, modulus) && FirstTime(steps).Some?
    ensures IntakeOf(steps, capacity, modulus, width).wraps == NewestTime(steps).value / modulus - FirstTime(steps).value / modulus
  {
    hide IntakeOf, FirstTime, NewestTime, TimelyRun;
    TimelyClock(steps, capacity, modulus, width);
    var first, newest, wraps := FirstTime(steps).value, NewestTime(steps).value, IntakeOf(steps, capacity, modulus, width).wraps;
    assert first == first / modulus * modulus + first % modulus && newest == newest / modulus * modulus + newest % modulus;
    assert (newest / modulus - first / modulus - wraps) * modulus
      == newest / modulus * modulus - first / modulus * modulus - wraps * modulus;
    DivMod.SmallMultiple(newest / modulus - first / modulus - wraps, modulus);
  }

  /** Any interleaving of decoded events and drains comes to exactly what folding the verdicts of
      `Unwrap` over its events comes to, timely or not: the samples, drained and queued, and every
      count. Every sample is drained, queued or counted as dropped, the queue stays within its
      capacity, and drained times strictly increase. In a timely run every event that is later than all before is received, and every sample's timestamp
      is the exact true time since the first event, over any number of wraps and with rejected
      stale events in between. */
  method RunQueue(capacity: nat, modulus: nat, width: nat, steps: seq<Step>)
    returns (drained: seq<Sample>, queued: seq<Sample>, received: nat, dropped: nat, invalid: nat, wraps: nat, reorders: nat,
      ghost times: seq<int>)
    requires capacity > 0 && modulus > 0
    ensures var s := IntakeOf(steps, capacity, modulus, width);
      && Flow(drained, queued, dropped) == s.flow && received == s.received && invalid == s.invalid
      && wraps == s.wraps && reorders == s.reorders
    ensures received == |drained| + |queued| + dropped && |queued| <= capacity
    ensures TimesIncrease(drained + queued)
    ensures TimelyRun(steps, modulus) ==>
      received == FreshEvents(steps, width) && Flow(drained, queued, dropped) == Flows(steps, capacity, width)
    ensures forall x :: x in times ==> exists s :: s in steps && s.Decoded? && s.t == x
    ensures TimelyRun(steps, modulus) && drained + queued != [] ==>
      FirstTime(steps).Some? && Stamped(drained + queued, times, FirstTime(steps).value)
  {
    hide AllBefore, AllEarlier, Exact, Unwrap, IsTimely, TimesIncrease, Stamped;
    hide FirstTime, NewestTime, FreshEvents, TimelyRun, Flows, FlowsOn, IntakeOf, Takes;
    var q := new SampleQueue(capacity, modulus, width);
    drained := [];
    NoSteps(capacity, modulus, width);
    for i := 0 to |steps|
      invariant q.Valid() && fresh(q) && q.capacity == capacity && q.modulus == modulus && q.width == width
      invariant drained == q.drained && q.Taken() == IntakeOf(steps[..i], capacity, modulus, width)
      invariant q.timely <==> TimelyRun(steps[..i], modulus)
      invariant q.trueTimes.None? <==> FirstTime(steps[..i]).None?
      invariant q.timely && q.trueTimes.Some? ==> q.trueTimes == Some((FirstTime(steps[..i]).value, NewestTime(steps[..i]).value))
      invariant q.timely ==>
        q.received == FreshEvents(steps[..i], width) && q.Flowing() == Flows(steps[..i], capacity, width)
      invariant forall x :: x in q.times ==> exists s :: s in steps && s.Decoded? && s.t == x
    {
      StepOn(steps[..i], steps[i], capacity, modulus, width);
      assert steps[..i + 1] == steps[..i] + [steps[i]] && steps[i] in steps;
      var more := q.Perform(steps[i]);
      drained := drained + more;
    }
    assert steps[..|steps|] == steps;
    queued, received, dropped, times := q.queue, q.received, q.dropped, q.times;
    invalid, wraps, reorders := q.invalid, q.wraps, q.reorders;
    if q.last.None? { NothingEarlier(drained + queued, 0.0); }
  }

  lemma NoSteps(capacity: nat, modulus: nat, width: nat)
    requires modulus > 0
    ensures FirstTime([]).None? && NewestTime([]).None? && TimelyRun([], modulus)
    ensures FreshEvents([], width) == 0 && Flows([], capacity, width) == Flow([], [], 0)
    ensures IntakeOf([], capacity, modulus, width) == NO_INTAKE
  {}

  /** Later than the newest event so far, if there is one. */
  predicate Later(newest: Option<int>, t: int) { newest.None? || t > newest.value }

  lemma StepOn(steps: seq<Step>, step: Step, capacity: nat, modulus: nat, width: nat)
    requires modulus > 0
    ensures
      var more, newest := steps + [step], NewestTime(steps);
      && FirstTime(more) == (if FirstTime(steps).None? && step.Decoded? then Some(step.t) else FirstTime(steps))
      && NewestTime(more) == (if step.Decoded? && Later(newest, step.t) then Some(step.t) else newest)
      && (TimelyRun(more, modulus) <==>
        TimelyRun(steps, modulus) && (step.Decoded? && newest.Some? ==> IsTimely(newest.value, step.t, modulus)))
      && FreshEvents(more, width)
        == FreshEvents(steps, width) + (if step.Decoded? && Later(newest, step.t) && |step.payload| >= width then 1 else 0)
      && Flows(more, capacity, width)
        == FlowsOn(Flows(steps, capacity, width), FirstTime(steps), newest, step, capacity, width)
      && IntakeOf(more, capacity, modulus, width) == Takes(IntakeOf(steps, capacity, modulus, width), step, capacity, modulus, width)
  {
    hide FlowsOn, IsTimely, Takes;
    assert (steps + [step])[..|steps|] == steps;
  }

  function Seconds(ns: int): (s: real)
    ensures s * 1000000000.0 == ns as real
  {
    ns as real / 1000000000.0
  }

  function Newest(s: seq<Sample>, capacity: nat): seq<Sample> { if |s| <= capacity then s else s[|s| - capacity..] }
}
