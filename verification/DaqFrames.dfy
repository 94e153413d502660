/** The receive path of `BufferedDaqPolicy.feed`: which DTO frames reach the decoder.

    The native decoder trusts its input: it must see the ODTs of an event in order and
    complete. `feed` checks the transport counter, the frame envelope and the ODT order, and
    resynchronises the decoder before anything out of order could reach it. */
module DaqFrames {
  import opened Common
  import DivMod

  datatype Category = Daq | Response | Event | Service | Other

  /** A frame as received; `event` is the slave's event number, which the receiver cannot see. */
  datatype Frame = Frame(category: Category, counter: int, payload: seq<nat>, event: nat)

  datatype Layout = Layout(
    headerSize: nat, overloadMsb: bool, littleEndian: bool, firstPid: nat, overloadCode: nat, lengths: seq<nat>)

  /** What `prepare` leaves behind when it does not raise. */
  predicate Prepared(layout: Layout) {
    && 1 <= layout.headerSize <= 4
    && 0 < |layout.lengths| <= 0xFC
    && (layout.headerSize == 1 ==> layout.firstPid + |layout.lengths| <= if layout.overloadMsb then 0x80 else 0xFC)
  }

  predicate Incoming(c: Category) { !c.Other? }

  function Delta(now: int, last: int): nat { (now - last) % 0x10000 }

  /** The counter moved forward: not a repetition and less than half a revolution ahead. */
  predicate Fresh(counter: Option<int>, now: int) { counter.None? || 0 < Delta(now, counter.value) < 0x8000 }

  /** Frames the counter says were lost just before this one. */
  function Lost(counter: Option<int>, now: int): nat {
    if counter.None? || !Fresh(counter, now) then 0 else Delta(now, counter.value) - 1
  }

  /** The counter is the first one, plus one per accepted frame after it, plus the counted losses. */
  ghost predicate CounterExplained(counter: Option<int>, first: int, accepted: nat, gaps: nat) {
    match counter
    case None => accepted == 0 && gaps == 0
    case Some(c) => accepted > 0 && (c - first - (accepted - 1) - gaps) % 0x10000 == 0
  }

  function FromBytes(bytes: seq<nat>, littleEndian: bool): nat {
    if bytes == [] then 0
    else if littleEndian then bytes[0] + 0x100 * FromBytes(bytes[1..], littleEndian)
    else FromBytes(bytes[..|bytes|-1], littleEndian) * 0x100 + bytes[|bytes|-1]
  }

  function Pid(layout: Layout, payload: seq<nat>): nat
    requires payload != []
  {
    if layout.overloadMsb && payload[0] >= 0x80 then payload[0] % 0x80 else payload[0]
  }

  /** The ODT index an envelope names, if the envelope is acceptable. */
  function OdtOf(layout: Layout, payload: seq<nat>): Option<nat>
    requires Prepared(layout)
  {
    if |payload| < layout.headerSize then None
    else
      var pid := Pid(layout, payload);
      var offset := if layout.headerSize == 4 then 2 else 1;
      if layout.headerSize > 1 && FromBytes(payload[offset..layout.headerSize], layout.littleEndian) != 0 then None
      else
        var odt := if layout.headerSize == 1 then pid - layout.firstPid else pid;
        if 0 <= odt < |layout.lengths| && |payload| >= layout.lengths[odt] then Some(odt) else None
  }

  lemma {:induction false} ZeroBytes(bytes: seq<nat>, littleEndian: bool)
    ensures FromBytes(bytes, littleEndian) == 0 <==> forall i :: 0 <= i < |bytes| ==> bytes[i] == 0
  {
    if bytes != [] {
      if littleEndian {
        ZeroBytes(bytes[1..], littleEndian);
        assert forall i :: 1 <= i < |bytes| ==> bytes[i] == bytes[1..][i-1];
      } else {
        ZeroBytes(bytes[..|bytes|-1], littleEndian);
      }
    }
  }

  /** Where the identification field holds the number of the DAQ list: after the identifier, and
      after a fill byte if the field is aligned. */
  predicate InListNumber(layout: Layout, i: nat) { (if layout.headerSize == 4 then 2 else 1) <= i < layout.headerSize }

  /** An envelope is accepted for ODT `k` exactly when its identifier, the overload bit aside, is
      that of `k`, it is of DAQ list 0, and it is long enough for the field and for the ODT. */
  lemma AcceptsExactly(layout: Layout, payload: seq<nat>, k: nat)
    requires Prepared(layout) && forall i :: 0 <= i < |payload| ==> payload[i] < 0x100
    ensures OdtOf(layout, payload) == Some(k) <==>
      && k < |layout.lengths| && |payload| >= layout.headerSize && |payload| >= layout.lengths[k]
      && (if layout.overloadMsb then payload[0] % 0x80 else payload[0]) == (if layout.headerSize == 1 then layout.firstPid + k else k)
      && forall i: nat :: InListNumber(layout, i) ==> payload[i] == 0
  {
    if |payload| >= layout.headerSize {
      ListNumberZero(layout, payload);
      hide FromBytes, InListNumber;
    }
  }

  lemma ListNumberZero(layout: Layout, payload: seq<nat>)
    requires Prepared(layout) && |payload| >= layout.headerSize
    ensures
      layout.headerSize == 1
      || FromBytes(payload[if layout.headerSize == 4 then 2 else 1..layout.headerSize], layout.littleEndian) == 0
      <==> forall i: nat :: InListNumber(layout, i) ==> payload[i] == 0
  {
    if layout.headerSize > 1 {
      var offset := if layout.headerSize == 4 then 2 else 1;
      var number := payload[offset..layout.headerSize];
      ZeroBytes(number, layout.littleEndian);
      hide FromBytes;
      SliceZero(payload, offset, layout.headerSize);
      assert forall i: nat :: InListNumber(layout, i) <==> offset <= i < layout.headerSize;
    }
  }

  lemma SliceZero(payload: seq<nat>, from: nat, to: nat)
    requires from <= to <= |payload|
    ensures
      (forall k :: 0 <= k < to - from ==> payload[from..to][k] == 0) <==> (forall i :: from <= i < to ==> payload[i] == 0)
  {
    var s := payload[from..to];
    if forall k :: 0 <= k < to - from ==> s[k] == 0 {
      forall i | from <= i < to ensures payload[i] == 0 { assert s[i - from] == payload[i]; }
    }
  }

  /** Frame numbers less than half a revolution of the counter apart: fresh exactly if later, and
      then the frames between are those counted as lost. */
  lemma FreshIffLater(last: int, now: int)
    requires -0x8000 <= now - last < 0x8000
    ensures Fresh(Some(last % 0x10000), now % 0x10000) <==> now > last
    ensures now > last ==> Lost(Some(last % 0x10000), now % 0x10000) == now - last - 1
  {
    var delta := now % 0x10000 - last % 0x10000;
    assert delta % 0x10000 == (now - last) % 0x10000;
  }

  /** The ODT due after `k` forwarded frames. */
  function Phase(k: nat, n: nat): (phase: nat)
    requires n > 0
    ensures phase < n && (k < n ==> phase == k)
  {
    k % n
  }

  /** `f[k]` is `k mod n`: complete passes over the ODTs, then a partial one. */
  ghost predicate InOrder(f: seq<nat>, n: nat)
    requires n > 0
  {
    forall k :: 0 <= k < |f| ==> f[k] == Phase(k, n)
  }

  lemma InOrderNext(f: seq<nat>, n: nat)
    requires n > 0 && InOrder(f, n)
    ensures InOrder(f + [Phase(|f|, n)], n) && Phase(Phase(|f|, n) + 1, n) == Phase(|f| + 1, n)
  {
    var q, r := |f| / n, |f| % n;
    assert |f| + 1 == q * n + (r + 1);
    if r + 1 < n {
      DivMod.Unique(|f| + 1, q, r + 1, n);
      DivMod.Unique(r + 1, 0, r + 1, n);
    } else {
      assert (q + 1) * n == q * n + n;
      DivMod.Unique(|f| + 1, q + 1, 0, n);
      DivMod.Unique(n, 1, 0, n);
    }
  }

  lemma SmallMod(n: nat)
    requires n > 0
    ensures Phase(0, n) == 0 && InOrder([], n)
  {
    DivMod.Unique(0, 0, 0, n);
  }

  /** The slave's next frame after ODT `odt` of event `event`. */
  datatype Place = Place(event: nat, odt: nat)

  function Successor(p: Place, n: nat): Place { if p.odt + 1 < n then Place(p.event, p.odt + 1) else Place(p.event + 1, 0) }

  /** The `k`-th forwarded frame belongs to event `first + k / n`. */
  ghost predicate OneEventEach(events: seq<nat>, n: nat)
    requires n > 0
  {
    forall k :: 0 <= k < |events| ==> events[k] == events[0] + k / n
  }

  lemma OneEventNext(events: seq<nat>, forwarded: seq<nat>, n: nat)
    requires n > 0 && |events| == |forwarded| > 0 && InOrder(forwarded, n) && OneEventEach(events, n)
    ensures var next := Successor(Place(events[|events|-1], forwarded[|forwarded|-1]), n);
      next.odt == Phase(|forwarded|, n) && OneEventEach(events + [next.event], n)
  {
    var m := |events| - 1;
    var q, r := m / n, m % n;
    assert m + 1 == q * n + (r + 1);
    if r + 1 < n {
      DivMod.Unique(m + 1, q, r + 1, n);
    } else {
      assert (q + 1) * n == q * n + n;
      DivMod.Unique(m + 1, q + 1, 0, n);
    }
  }

  lemma OneEventStart(event: nat, n: nat)
    requires n > 0
    ensures OneEventEach([event], n) && OneEventEach([], n)
  {
    DivMod.Unique(0, 0, 0, n);
  }

  // ----- what the frames of an active receiver come to

  /** Everything the decoder was given and why. `forwarded` and `events` are the ODTs handed to
      the decoder since it was last reset and the events they belong to. `latest` is event and ODT
      of the newest DAQ frame, unknown after a damaged one; `gapless` says that no loss was counted
      since the decoder's first frame; `orderly` that, without loss, the slave's DAQ frames came
      event after event, ODT after ODT. */
  datatype Watch = Watch(
    counter: Option<int>, first: int, accepted: nat, gaps: nat,
    next: nat, reset: bool, forwarded: seq<nat>, events: seq<nat>,
    latest: Option<Place>, orderly: bool, gapless: bool)

  const NOTHING_SEEN := Watch(None, 0, 0, 0, 0, false, [], [], None, true, true)

  /** A fresh frame's counter is taken and the loss before it counted. */
  function Counted(w: Watch, now: int): Watch {
    if w.counter.None? then w.(counter := Some(now), first := now, accepted := 1)
    else
      w.(counter := Some(now), accepted := w.accepted + 1, gaps := w.gaps + Lost(w.counter, now),
        gapless := w.gapless && Lost(w.counter, now) == 0)
  }

  /** A damaged frame: whatever the decoder has is incomplete. */
  function Damaged(w: Watch): Watch { w.(reset := true, next := 0, latest := None) }

  function Noted(w: Watch, place: Place, n: nat): Watch {
    w.(latest := Some(place),
      orderly := w.orderly && (w.gapless && w.latest.Some? ==> place == Successor(w.latest.value, n)))
  }

  /** Whether the decoder is given this ODT. */
  predicate Passes(w: Watch, odt: nat) { odt == w.next || odt == 0 }

  /** Whether the decoder starts over before it is given this ODT. */
  predicate StartsOver(w: Watch, odt: nat) { w.reset || odt != w.next }

  function Given(w: Watch, place: Place, n: nat): Watch
    requires n > 0
  {
    var v := if StartsOver(w, place.odt) || w.forwarded == [] then w.(forwarded := [], events := [], gapless := true) else w;
    v.(reset := false, next := Phase(place.odt + 1, n),
      forwarded := v.forwarded + [place.odt], events := v.events + [place.event])
  }

  function Sequenced(w: Watch, place: Place, n: nat): Watch
    requires n > 0
  {
    var v := Noted(w, place, n);
    if Passes(v, place.odt) then Given(v, place, n) else v.(reset := true, next := 0)
  }

  function Watched(layout: Layout, w: Watch, frame: Frame): Watch
    requires Prepared(layout)
  {
    if Incoming(frame.category) && !Fresh(w.counter, frame.counter) then w
    else
      var v := if Incoming(frame.category) then Counted(w, frame.counter) else w;
      if !frame.category.Daq? then v
      else
        match OdtOf(layout, frame.payload)
        case None => Damaged(v)
        case Some(odt) => Sequenced(v, Place(frame.event, odt), |layout.lengths|)
  }

  function WatchAll(layout: Layout, frames: seq<Frame>): Watch
    requires Prepared(layout)
  {
    if frames == [] then NOTHING_SEEN else Watched(layout, WatchAll(layout, frames[..|frames|-1]), frames[|frames|-1])
  }

  /** The ODT of the frame that the decoder is given, if it is. */
  function Passed(layout: Layout, w: Watch, frame: Frame): Option<nat>
    requires Prepared(layout)
  {
    if !frame.category.Daq? || !Fresh(w.counter, frame.counter) then None
    else
      match OdtOf(layout, frame.payload)
      case None => None
      case Some(odt) => if Passes(w, odt) then Some(odt) else None
  }

  // ----- what holds whatever arrives

  /** The decoder's position; the first three clauses do not look at where frames came from. */
  ghost predicate Aligned(w: Watch, n: nat)
    requires n > 0
  {
    && w.next < n && |w.events| == |w.forwarded| && InOrder(w.forwarded, n)
    && (w.reset ==> w.next == 0)
    && (!w.reset ==> w.next == Phase(|w.forwarded|, n))
    && (!w.reset && w.forwarded != [] ==> w.latest == Some(Place(w.events[|w.events|-1], w.forwarded[|w.forwarded|-1])))
  }

  ghost predicate WatchOk(w: Watch, n: nat)
    requires n > 0
  {
    && Aligned(w, n) && (w.orderly && w.gapless ==> OneEventEach(w.events, n))
    && CounterExplained(w.counter, w.first, w.accepted, w.gaps)
  }

  lemma CountedKeeps(w: Watch, now: int, n: nat)
    requires n > 0 && WatchOk(w, n) && Fresh(w.counter, now)
    ensures WatchOk(Counted(w, now), n)
  {
    hide InOrder, OneEventEach, Phase;
  }

  lemma DamagedKeeps(w: Watch, n: nat)
    requires n > 0 && WatchOk(w, n)
    ensures WatchOk(Damaged(w), n)
  {
    hide InOrder, OneEventEach, Phase, CounterExplained;
  }

  /** An expected frame continues the decoder's event. */
  lemma ContinuesKeeps(w: Watch, place: Place, n: nat)
    requires n > 0 && WatchOk(w, n) && place.odt < n && !StartsOver(w, place.odt)
    ensures WatchOk(Sequenced(w, place, n), n)
  {
    hide InOrder, OneEventEach, Phase, CounterExplained;
    InOrderNext(w.forwarded, n);
    if w.forwarded == [] {
      OneEventStart(place.event, n);
      assert w.events + [place.event] == [place.event];
    } else if w.orderly && w.gapless {
      OneEventNext(w.events, w.forwarded, n);
    }
  }

  /** Any other frame makes the decoder start over with it, if it starts an event, or wait. */
  lemma StartsOverKeeps(w: Watch, place: Place, n: nat)
    requires n > 0 && WatchOk(w, n) && place.odt < n && StartsOver(w, place.odt)
    ensures WatchOk(Sequenced(w, place, n), n)
  {
    hide InOrder, OneEventEach, CounterExplained;
    if place.odt == 0 {
      FirstKeeps(w, place, n);
    } else {
      hide Phase;
      assert !Passes(w, place.odt);
    }
  }

  lemma FirstKeeps(w: Watch, place: Place, n: nat)
    requires n > 0 && WatchOk(w, n) && place.odt == 0 && StartsOver(w, 0)
    ensures WatchOk(Sequenced(w, place, n), n)
  {
    hide InOrder, OneEventEach, Phase, CounterExplained;
    SmallMod(n);
    OneEventStart(place.event, n);
    InOrderNext([], n);
    assert [] + [0] == [0] && [] + [place.event] == [place.event];
    var v := Sequenced(w, place, n);
    assert v.forwarded == [0] && v.events == [place.event] && v.next == Phase(1, n) && !v.reset;
  }

  lemma WatchedKeeps(layout: Layout, w: Watch, frame: Frame)
    requires Prepared(layout) && WatchOk(w, |layout.lengths|)
    ensures WatchOk(Watched(layout, w, frame), |layout.lengths|)
  {
    hide WatchOk, Counted, Damaged, Sequenced, OdtOf;
    var n := |layout.lengths|;
    if !Incoming(frame.category) || Fresh(w.counter, frame.counter) {
      var v := w;
      if Incoming(frame.category) {
        CountedKeeps(w, frame.counter, n);
        v := Counted(w, frame.counter);
      }
      if frame.category.Daq? {
        match OdtOf(layout, frame.payload)
        case None => DamagedKeeps(v, n);
        case Some(odt) =>
          var place := Place(frame.event, odt);
          OdtInRange(layout, frame.payload);
          if StartsOver(v, odt) { StartsOverKeeps(v, place, n); } else { ContinuesKeeps(v, place, n); }
      }
    }
  }

  lemma OdtInRange(layout: Layout, payload: seq<nat>)
    requires Prepared(layout)
    ensures OdtOf(layout, payload).Some? ==> OdtOf(layout, payload).value < |layout.lengths|
  {}

  /** Whatever frames arrive, in any order: since its last reset the decoder got the ODTs
      0, 1, ..., n-1 over and over, a pending reset means that ODT 0 comes next, the counter is
      explained by what was counted, and without a counted loss an orderly slave's events were
      never mixed. */
  lemma {:induction false} EveryRun(layout: Layout, frames: seq<Frame>)
    requires Prepared(layout)
    ensures WatchOk(WatchAll(layout, frames), |layout.lengths|)
  {
    if frames == [] {
      SmallMod(|layout.lengths|);
      OneEventStart(0, |layout.lengths|);
    } else {
      hide Watched, WatchOk;
      EveryRun(layout, frames[..|frames|-1]);
      WatchedKeeps(layout, WatchAll(layout, frames[..|frames|-1]), frames[|frames|-1]);
    }
  }

  // ----- what the decoder is given

  /** From frame `from` on: good frames, from ODT 0 on, ODT after ODT, each fresh after the one before. */
  ghost predicate GoodFrames(layout: Layout, frames: seq<Frame>, from: nat)
    requires Prepared(layout) && from <= |frames|
  {
    && (forall j :: from <= j < |frames| ==>
      frames[j].category.Daq? && OdtOf(layout, frames[j].payload) == Some(Phase(j - from, |layout.lengths|)))
    && (from < |frames| ==> Fresh(WatchAll(layout, frames[..from]).counter, frames[from].counter))
    && (forall j :: from < j < |frames| ==> Fresh(Some(frames[j-1].counter), frames[j].counter))
  }

  /** After whatever came before, the decoder is given every frame of a good event, and so on for
      the events that follow. */
  lemma {:induction false} EventPasses(layout: Layout, frames: seq<Frame>, from: nat)
    requires Prepared(layout) && from <= |frames| && GoodFrames(layout, frames, from)
    ensures forall j :: from <= j < |frames| ==>
      Passed(layout, WatchAll(layout, frames[..j]), frames[j]) == Some(Phase(j - from, |layout.lengths|))
  {
    forall j | from <= j < |frames|
      ensures Passed(layout, WatchAll(layout, frames[..j]), frames[j]) == Some(Phase(j - from, |layout.lengths|))
    {
      hide *;
      FramePasses(layout, frames, from, j);
    }
  }

  lemma {:induction false} FramePasses(layout: Layout, frames: seq<Frame>, from: nat, j: nat)
    requires Prepared(layout) && from <= j < |frames| && GoodFrames(layout, frames, from)
    ensures Passed(layout, WatchAll(layout, frames[..j]), frames[j]) == Some(Phase(j - from, |layout.lengths|))
    ensures
      var w := WatchAll(layout, frames[..j + 1]);
      !w.reset && w.next == Phase(j + 1 - from, |layout.lengths|) && w.counter == Some(frames[j].counter)
    decreases j
  {
    hide Prepared, OdtOf, Phase, Fresh, Passed, Watched, WatchAll;
    if j == from { FirstPhase(|layout.lengths|); } else { FramePasses(layout, frames, from, j - 1); }
    NextPhase(j - from, |layout.lengths|);
    GivenOdt(layout, WatchAll(layout, frames[..j]), frames[j], Phase(j - from, |layout.lengths|));
    WatchedNext(layout, frames, j);
  }

  lemma FirstPhase(n: nat)
    requires n > 0
    ensures Phase(0, n) == 0
  {}

  lemma NextPhase(k: nat, n: nat)
    requires n > 0
    ensures Phase(Phase(k, n) + 1, n) == Phase(k + 1, n)
  {
    InOrderNext(seq(k, i requires 0 <= i < k => Phase(i, n)), n);
  }

  lemma GivenOdt(layout: Layout, w: Watch, frame: Frame, odt: nat)
    requires Prepared(layout) && frame.category.Daq? && OdtOf(layout, frame.payload) == Some(odt)
    requires Fresh(w.counter, frame.counter) && (odt == w.next || odt == 0)
    ensures Passed(layout, w, frame) == Some(odt)
    ensures var v := Watched(layout, w, frame);
      !v.reset && v.next == Phase(odt + 1, |layout.lengths|) && v.counter == Some(frame.counter)
  {
    hide OdtOf, Phase;
  }

  /** A fresh frame that the decoder is not given makes it wait: it is given nothing more before an
      ODT 0. */
  lemma NothingUntilZero(layout: Layout, frames: seq<Frame>, bad: Frame, frame: Frame)
    requires Prepared(layout) && bad.category.Daq? && Fresh(WatchAll(layout, frames).counter, bad.counter)
    requires Passed(layout, WatchAll(layout, frames), bad).None?
    ensures Passed(layout, WatchAll(layout, frames + [bad]), frame) in {None, Some(0)}
  {
    hide OdtOf, Phase;
    assert (frames + [bad])[..|frames|] == frames;
  }

  /** Everything the decoder was ever given. */
  function PassedAll(layout: Layout, frames: seq<Frame>): seq<nat>
    requires Prepared(layout)
  {
    if frames == [] then []
    else
      var front := frames[..|frames|-1];
      var odt := Passed(layout, WatchAll(layout, front), frames[|frames|-1]);
      PassedAll(layout, front) + if odt.Some? then [odt.value] else []
  }

  /** The ODTs since the last reset are the last of those. */
  lemma {:induction false} ForwardedArePassed(layout: Layout, frames: seq<Frame>)
    requires Prepared(layout)
    ensures
      IsTail(WatchAll(layout, frames).forwarded, PassedAll(layout, frames))
  {
    if frames != [] {
      hide Passed, Watched, Prepared, IsTail;
      var front := frames[..|frames|-1];
      ForwardedArePassed(layout, front);
      ForwardOne(layout, WatchAll(layout, front), frames[|frames|-1]);
      var odt := Passed(layout, WatchAll(layout, front), frames[|frames|-1]);
      if odt.Some? {
        TailGrows(WatchAll(layout, front).forwarded, PassedAll(layout, front), odt.value);
      } else {
        assert PassedAll(layout, front) + [] == PassedAll(layout, front);
      }
    }
  }

  ghost predicate IsTail(last: seq<nat>, all: seq<nat>) { |last| <= |all| && last == all[|all| - |last|..] }

  lemma TailGrows(last: seq<nat>, all: seq<nat>, x: nat)
    requires IsTail(last, all)
    ensures IsTail(last + [x], all + [x]) && IsTail([x], all + [x])
  {}

  /** What the decoder is given is added to what it has, or replaces it. */
  lemma ForwardOne(layout: Layout, w: Watch, frame: Frame)
    requires Prepared(layout)
    ensures
      var odt, v := Passed(layout, w, frame), Watched(layout, w, frame);
      if odt.Some? then v.forwarded == w.forwarded + [odt.value] || v.forwarded == [odt.value] else v.forwarded == w.forwarded
  {
    hide OdtOf, Phase, Fresh, Lost;
  }

  /** Frames that the slave numbered, each less than half a revolution after the one before: the
      losses counted are exactly the numbers that did not arrive. */
  lemma {:induction false} GapsAreExact(layout: Layout, frames: seq<Frame>, numbers: seq<int>)
    requires Prepared(layout) && |numbers| == |frames| > 0
    requires forall i :: 0 <= i < |frames| ==> !frames[i].category.Other? && frames[i].counter == numbers[i] % 0x10000
    requires forall i :: 0 < i < |frames| ==> 0 < numbers[i] - numbers[i-1] < 0x8000
    ensures
      var w := WatchAll(layout, frames);
      && w.counter == Some(numbers[|frames|-1] % 0x10000) && w.accepted == |frames|
      && w.gaps == numbers[|frames|-1] - numbers[0] - (|frames| - 1)
  {
    hide OdtOf, Prepared, Fresh, Lost, Sequenced, Damaged;
    var k := |frames| - 1;
    var front := frames[..k];
    if k == 0 {
      assert WatchAll(layout, front) == NOTHING_SEEN;
      NothingLost(frames[0].counter);
      CountsOne(layout, NOTHING_SEEN, frames[0]);
    } else {
      GapsAreExact(layout, front, numbers[..k]);
      FreshIffLater(numbers[k-1], numbers[k]);
      CountsOne(layout, WatchAll(layout, front), frames[k]);
      hide WatchAll;
    }
  }

  lemma CountsOne(layout: Layout, w: Watch, frame: Frame)
    requires Prepared(layout) && Incoming(frame.category) && Fresh(w.counter, frame.counter)
    ensures var v := Watched(layout, w, frame);
      && v.counter == Some(frame.counter) && v.accepted == (if w.counter.None? then 1 else w.accepted + 1)
      && v.gaps == w.gaps + Lost(w.counter, frame.counter)
  {
    hide OdtOf, Phase, Sequenced, Fresh, Lost;
    if frame.category.Daq? && OdtOf(layout, frame.payload).Some? {
      SequencedCounts(Counted(w, frame.counter), Place(frame.event, OdtOf(layout, frame.payload).value), |layout.lengths|);
    }
    NothingLost(frame.counter);
  }

  lemma SequencedCounts(w: Watch, place: Place, n: nat)
    requires n > 0
    ensures var v := Sequenced(w, place, n); v.counter == w.counter && v.accepted == w.accepted && v.gaps == w.gaps
  {
    hide Phase;
  }

  lemma NothingLost(now: int)
    ensures Fresh(None, now) && Lost(None, now) == 0
  {}

  class Receiver {
    const layout: Layout
    var ready: bool
    var active: bool
    var closed: bool
    var nextOdt: nat
    var resetDecoder: bool
    var counter: Option<int>
    var reordered: nat
    var gaps: nat
    var invalid: nat
    var incomplete: nat
    var overloads: nat
    ghost var watch: Watch

    ghost predicate Valid()
      reads this
    {
      && Prepared(layout) && WatchOk(watch, |layout.lengths|)
      && watch.next == nextOdt && watch.reset == resetDecoder && watch.counter == counter && watch.gaps == gaps
    }

    constructor (layout: Layout)
      requires Prepared(layout)
      ensures this.layout == layout && Valid() && ready && !active && !closed && watch == NOTHING_SEEN
    {
      this.layout := layout;
      ready, active, closed, nextOdt, resetDecoder, counter := true, false, false, 0, false, None;
      reordered, gaps, invalid, incomplete, overloads := 0, 0, 0, 0, 0;
      watch := NOTHING_SEEN;
      new;
      EveryRun(layout, []);
    }

    method Activate()
      requires Valid()
      modifies this`active
      ensures Valid() && active
    {
      hide WatchOk;
      active := true;
    }

    /** `feed`. A closed or unprepared policy ignores the frame, an inactive one takes only its
        counter; an active one does what `Watched` says, and the result is the ODT handed to the
        decoder, if any. */
    method Feed(frame: Frame) returns (passed: Option<nat>)
      requires Valid()
      modifies this`nextOdt, this`resetDecoder, this`counter, this`reordered, this`gaps, this`invalid, this`incomplete,
        this`overloads, this`watch
      ensures Valid()
      ensures closed || !ready ==> passed.None? && watch == old(watch)
      ensures !closed && ready && !active ==> passed.None? && watch.forwarded == old(watch).forwarded
      ensures !closed && ready && active ==>
        watch == Watched(layout, old(watch), frame) && passed == Passed(layout, old(watch), frame)
    {
      hide WatchOk, OdtOf, Prepared, Sequenced, Damaged;
      passed := None;
      if closed || !ready { return; }
      if Incoming(frame.category) {
        var taken := TakeCounter(frame.counter);
        if !taken { return; }
      }
      if frame.category.Event? {
        if |frame.payload| > 1 && frame.payload[1] == layout.overloadCode { overloads := overloads + 1; }
        return;
      }
      if !frame.category.Daq? || !active { return; }
      var odt := Envelope(frame.payload);
      if odt.None? { return; }
      passed := Sequence(odt.value, frame.event);
    }

    /** The transport-counter check at the top of `feed`. */
    method TakeCounter(now: int) returns (taken: bool)
      requires Valid()
      modifies this`counter, this`reordered, this`gaps, this`watch
      ensures Valid() && taken == Fresh(old(watch).counter, now)
      ensures watch == if taken then Counted(old(watch), now) else old(watch)
      ensures reordered == old(reordered) + if taken then 0 else 1
    {
      hide WatchOk;
      if counter.Some? {
        var delta := Delta(now, counter.value);
        if delta == 0 || delta >= 0x8000 {
          reordered := reordered + 1;
          return false;
        }
        if delta > 1 { gaps := gaps + (delta - 1); }
      }
      counter := Some(now);
      CountedKeeps(watch, now, |layout.lengths|);
      watch := Counted(watch, now);
      taken := true;
    }

    method InvalidFrame()
      requires Valid()
      modifies this`invalid, this`resetDecoder, this`nextOdt, this`watch
      ensures Valid() && invalid == old(invalid) + 1 && watch == Damaged(old(watch))
    {
      hide WatchOk;
      invalid, resetDecoder, nextOdt := invalid + 1, true, 0;
      DamagedKeeps(watch, |layout.lengths|);
      watch := Damaged(watch);
    }

    /** The envelope checks: identifier, list number, ODT range and length. */
    method Envelope(payload: seq<nat>) returns (odt: Option<nat>)
      requires Valid()
      modifies this`invalid, this`resetDecoder, this`nextOdt, this`overloads, this`watch
      ensures Valid() && odt == OdtOf(layout, payload)
      ensures odt.Some? ==> watch == old(watch) && odt.value < |layout.lengths|
      ensures odt.None? ==> watch == Damaged(old(watch))
      ensures invalid == old(invalid) + if odt.None? then 1 else 0
    {
      hide WatchOk, Damaged;
      if |payload| < layout.headerSize {
        InvalidFrame();
        return None;
      }
      var pid := payload[0];
      if layout.overloadMsb && pid >= 0x80 {
        overloads := overloads + 1;
        pid := pid % 0x80;
      }
      var index: int := pid;
      if layout.headerSize == 1 {
        index := pid - layout.firstPid;
      } else {
        var offset := if layout.headerSize == 4 then 2 else 1;
        if FromBytes(payload[offset..layout.headerSize], layout.littleEndian) != 0 {
          InvalidFrame();
          return None;
        }
      }
      if !(0 <= index < |layout.lengths|) || |payload| < layout.lengths[index] {
        InvalidFrame();
        return None;
      }
      odt := Some(index);
    }

    /** The ODT order check, the lazy decoder reset and the hand-over to the decoder. */
    method Sequence(odt: nat, event: nat) returns (passed: Option<nat>)
      requires Valid() && odt < |layout.lengths|
      modifies this`nextOdt, this`resetDecoder, this`incomplete, this`watch
      ensures Valid() && watch == Sequenced(old(watch), Place(event, odt), |layout.lengths|)
      ensures passed == if Passes(old(watch), odt) then Some(odt) else None
      ensures incomplete == old(incomplete) + if odt == old(nextOdt) then 0 else 1
    {
      hide WatchOk, Prepared, Phase;
      ghost var place := Place(event, odt);
      if StartsOver(watch, odt) {
        StartsOverKeeps(watch, place, |layout.lengths|);
      } else {
        ContinuesKeeps(watch, place, |layout.lengths|);
      }
      watch := Sequenced(watch, place, |layout.lengths|);
      if odt != nextOdt {
        incomplete, resetDecoder, nextOdt := incomplete + 1, true, 0;
        if odt != 0 { return None; }
      }
      if resetDecoder {
        resetDecoder := false;  // after set_parameters(measurement_params): the decoder starts over
      }
      nextOdt := Phase(odt + 1, |layout.lengths|);
      passed := Some(odt);
    }
  }

  /** A receiver that is active from the first frame on: what it passes to the decoder and what it
      counts are those of `WatchAll`, about which `EveryRun` speaks. */
  method RunFeed(layout: Layout, frames: seq<Frame>) returns (passed: seq<Option<nat>>, counter: Option<int>, gaps: nat)
    requires Prepared(layout)
    ensures |passed| == |frames|
    ensures forall i :: 0 <= i < |frames| ==> passed[i] == Passed(layout, WatchAll(layout, frames[..i]), frames[i])
    ensures counter == WatchAll(layout, frames).counter && gaps == WatchAll(layout, frames).gaps
  {
    hide WatchOk, Watched, Passed, Prepared, WatchAll;
    NothingWatched(layout);
    var receiver := new Receiver(layout);
    receiver.Activate();
    passed := [];
    for i := 0 to |frames|
      invariant fresh(receiver) && receiver.Valid() && receiver.layout == layout
      invariant receiver.active && receiver.ready && !receiver.closed
      invariant receiver.watch == WatchAll(layout, frames[..i])
      invariant |passed| == i && forall k :: 0 <= k < i ==> passed[k] == Passed(layout, WatchAll(layout, frames[..k]), frames[k])
    {
      WatchedNext(layout, frames, i);
      var one := receiver.Feed(frames[i]);
      passed := passed + [one];
    }
    assert frames[..|frames|] == frames;
    counter, gaps := receiver.counter, receiver.gaps;
  }

  lemma NothingWatched(layout: Layout)
    requires Prepared(layout)
    ensures WatchAll(layout, []) == NOTHING_SEEN
  {}

  lemma WatchedNext(layout: Layout, frames: seq<Frame>, i: nat)
    requires Prepared(layout) && i < |frames|
    ensures WatchAll(layout, frames[..i + 1]) == Watched(layout, WatchAll(layout, frames[..i]), frames[i])
  {
    hide Watched;
    assert frames[..i + 1][..i] == frames[..i];
  }

  /** How many frames of the slave come before this one, from ODT 0 of event 0 on. */
  function Number(p: Place, n: nat): nat { p.event * n + p.odt }

  function PlaceOf(number: nat, n: nat): (p: Place)
    requires n > 0
    ensures p.odt < n
  {
    Place(number / n, number % n)
  }

  /** When `m` frames are skipped right after frame number `p` in the middle of an event, the next
      one has the expected ODT exactly when `m` is a multiple of the ODT count, and is of the same
      event only if nothing was skipped. */
  lemma SkippedFrames(p: nat, m: nat, n: nat)
    requires n > 0 && p % n + 1 < n
    ensures (p + 1 + m) % n == p % n + 1 <==> m % n == 0
    ensures m % n == 0 ==> ((p + 1 + m) / n == p / n <==> m == 0)
  {
    AddSkipped(p / n, p % n, m / n, m % n, n);
    assert p + 1 + m == (p / n) * n + (m / n) * n + (p % n + 1 + m % n);
    assert m == (m / n) * n + m % n;
    if m % n == 0 && m > 0 { DivMod.MulPositive(m / n, n); }
  }

  lemma AddSkipped(q: nat, r: nat, a: nat, b: nat, n: nat)
    requires r + 1 < n && b < n
    ensures var x := q * n + a * n + (r + 1 + b);
      && (x % n == r + 1 <==> b == 0)
      && (b == 0 ==> x / n == q + a)
  {
    if r + 1 + b < n {
      assert (q + a) * n == q * n + a * n;
      DivMod.Unique(q * n + a * n + (r + 1 + b), q + a, r + 1 + b, n);
    } else {
      assert (q + a + 1) * n == q * n + a * n + n;
      DivMod.Unique(q * n + a * n + (r + 1 + b), q + a + 1, r + 1 + b - n, n);
    }
  }

  lemma NumberOfPlace(p: Place, n: nat)
    requires n > 0 && p.odt < n
    ensures PlaceOf(Number(p, n), n) == p
  {
    DivMod.Unique(Number(p, n), p.event, p.odt, n);
  }

  /** The decoder's event gets one more frame, and that frame is of another event. */
  ghost predicate Mixes(w: Watch, after: Watch) {
    var k := |w.forwarded|;
    && 0 < k == |w.events| && |after.forwarded| == |after.events| == k + 1
    && after.forwarded[..k] == w.forwarded && after.events[k] != w.events[k - 1]
  }

  /** The blind spot of the order check, exactly. The decoder has been given part of an event; the
      next `m` frames of the slave are lost and the counter says so. The frame after them is added
      to the decoder's event although it belongs to a later one exactly when `m` is a positive
      multiple of the ODT count. */
  lemma OrderCheckBlindSpot(layout: Layout, w: Watch, frame: Frame, m: nat)
    requires Prepared(layout) && WatchOk(w, |layout.lengths|)
    requires !w.reset && w.forwarded != [] && w.counter.Some? && w.next > 0
    requires frame.category.Daq? && Delta(frame.counter, w.counter.value) == 1 + m < 0x8000
    requires
      var next := PlaceOf(Number(w.latest.value, |layout.lengths|) + 1 + m, |layout.lengths|);
      OdtOf(layout, frame.payload) == Some(next.odt) && frame.event == next.event
    ensures Watched(layout, w, frame).gaps == w.gaps + m
    ensures
      var after, n := Watched(layout, w, frame), |layout.lengths|;
      Mixes(w, after) <==> m > 0 && m % n == 0
  {
    var n := |layout.lengths|;
    var p := w.latest.value;
    var next := PlaceOf(Number(p, n) + 1 + m, n);
    MiddleOfEvent(w, n);
    NumberOfPlace(p, n);
    SkippedFrames(Number(p, n), m, n);
    hide OdtOf, Prepared, InOrder, OneEventEach, CounterExplained, Number, Phase;
    var v := Counted(w, frame.counter);
    assert Watched(layout, w, frame) == Sequenced(v, next, n);
    assert next.odt == w.next <==> m % n == 0;
  }

  lemma MiddleOfEvent(w: Watch, n: nat)
    requires n > 0 && WatchOk(w, n) && !w.reset && w.forwarded != [] && w.next > 0
    ensures w.latest == Some(Place(w.events[|w.events|-1], w.forwarded[|w.forwarded|-1]))
    ensures w.latest.value.odt + 1 == w.next < n
  {
    var k := |w.forwarded| - 1;
    assert w.forwarded[k] == Phase(k, n);
    hide OneEventEach, CounterExplained;
    InOrderNext(w.forwarded[..k], n);
    if Phase(k, n) + 1 < n {
      DivMod.Unique(Phase(k, n) + 1, 0, Phase(k, n) + 1, n);
    } else {
      DivMod.Unique(n, 1, 0, n);
    }
  }

  /** With ODTs 0 and 1 per event, losing two frames in the middle is counted but not noticed
      by the order check: the decoder gets ODT 0 of event 0 followed by ODT 1 of event 1. */
  lemma LossOfWholeEventMixes()
    ensures
      var layout := Layout(1, false, true, 0, 0, [1, 1]);
      var a, b := Frame(Daq, 0, [0], 0), Frame(Daq, 3, [1], 1);
      var v, w := WatchAll(layout, [a]), WatchAll(layout, [a, b]);
      && !v.reset && v.next == 1 && v.counter == Some(0) && v.latest == Some(Place(0, 0))
      && w.gaps == 2 && !w.reset && w.forwarded == [0, 1] && w.events == [0, 1]
      && Mixes(v, w) && !OneEventEach(w.events, 2)
  {
    var layout := Layout(1, false, true, 0, 0, [1, 1]);
    assert OdtOf(layout, [0]) == Some(0) && OdtOf(layout, [1]) == Some(1);
    hide OdtOf;
    var a, b := Frame(Daq, 0, [0], 0), Frame(Daq, 3, [1], 1);
    assert [a][..0] == [] && [a, b][..1] == [a];
    assert Phase(1, 2) == 1;
    assert WatchAll(layout, []) == NOTHING_SEEN;
    var v := WatchAll(layout, [a]);
    assert [a][|[a]|-1] == a && v == Watched(layout, WatchAll(layout, []), a);
    assert WatchAll(layout, [a, b]) == Watched(layout, v, b);
    EventsMixed([0, 1]);
  }

  lemma EventsMixed(events: seq<nat>)
    requires events == [0, 1]
    ensures !OneEventEach(events, 2)
  {
    assert events[1] != events[0] + 1 / 2;
  }
}
