/** What the network endpoint achieves when nobody stands in its way.

    From every state that a run can reach: a model that keeps reading gets every byte that has
    arrived, and a socket that takes what it is offered gets every byte that was accepted. */
module EndpointProgress {
  import opened Common
  import opened NetworkEndpoint

  function RunFrom(w: Wire, steps: seq<Step>): Wire {
    if steps == [] then w else Next(RunFrom(w, steps[..|steps|-1]), steps[|steps|-1])
  }

  lemma {:induction false} RunJoins(tcp: bool, steps: seq<Step>, more: seq<Step>)
    ensures Run(tcp, steps + more) == RunFrom(Run(tcp, steps), more)
  {
    if more == [] {
      assert steps + more == steps;
    } else {
      hide Next;
      assert (steps + more)[..|steps + more|-1] == steps + more[..|more|-1];
      RunJoins(tcp, steps, more[..|more|-1]);
    }
  }

  lemma {:induction false} FromJoins(w: Wire, steps: seq<Step>, more: seq<Step>)
    ensures RunFrom(w, steps + more) == RunFrom(RunFrom(w, steps), more)
  {
    if more == [] {
      assert steps + more == steps;
    } else {
      hide Next;
      assert (steps + more)[..|steps + more|-1] == steps + more[..|more|-1];
      FromJoins(w, steps, more[..|more|-1]);
    }
  }

  lemma FromOne(w: Wire, step: Step)
    ensures RunFrom(w, [step]) == Next(w, step)
  {
    hide Next;
    assert [step][..0] == [] && RunFrom(w, [step][..0]) == w;
  }

  /** No received chunk is longer than the model's largest buffer, and a datagram is not sent in parts. */
  ghost predicate Whole(w: Wire) {
    && (forall c :: c in w.waiting ==> |c| <= MAX_BYTES)
    && (w.receiving.Chunk? ==> |w.receiving.packet| <= MAX_BYTES)
    && (!w.tcp ==> w.offset == 0)
  }

  lemma WholeStep(w: Wire, step: Step)
    requires Whole(w)
    ensures Whole(Next(w, step))
  {
    match step
    case DoSend(data, busy) =>
    case DoReceive(capacity, busy) =>
    case DoComeUp =>
    case DoStayDown(why) =>
    case DoDequeue =>
    case DoTransmit(reply) =>
    case DoClose =>
    case DoReset =>
    case DoLook =>
    case DoRecv(reply) =>
    case DoStore =>
  }

  lemma {:induction false} EveryRunWhole(tcp: bool, steps: seq<Step>)
    ensures Whole(Run(tcp, steps))
  {
    if steps != [] {
      hide Next, Whole;
      EveryRunWhole(tcp, steps[..|steps|-1]);
      WholeStep(Run(tcp, steps[..|steps|-1]), steps[|steps|-1]);
    }
  }

  // ----- receiving

  /** The model reads `n` times into a buffer of full size. */
  function Reads(n: nat): seq<Step> { if n == 0 then [] else [DoReceive(MAX_BYTES, false)] + Reads(n - 1) }

  lemma ReadOne(w: Wire)
    requires Whole(w) && w.waiting != []
    ensures Next(w, DoReceive(MAX_BYTES, false))
      == w.(pendingError := None, returned := w.returned + w.waiting[0], waiting := w.waiting[1..])
  {
    var front := w.waiting[0];
    assert front in w.waiting && front[..Min(|front|, MAX_BYTES)] == front;
    assert [] + w.waiting[1..] == w.waiting[1..];
  }

  lemma {:induction false} ReadsAll(w: Wire)
    requires Whole(w)
    ensures
      var v := RunFrom(w, Reads(|w.waiting|));
      v.waiting == [] && v.returned == w.returned + Flatten(w.waiting) && v.receiving == w.receiving && v.tcp == w.tcp
    decreases |w.waiting|
  {
    hide Next, RunFrom, Whole, Flatten;
    if w.waiting == [] {
      ReadsNothing(w);
    } else {
      var v := Next(w, DoReceive(MAX_BYTES, false));
      ReadsFirst(w);
      ReadsAll(v);
      FlattenTwo(w.returned, w.waiting);
    }
  }

  lemma ReadsNothing(w: Wire)
    requires w.waiting == []
    ensures RunFrom(w, Reads(0)) == w && w.returned + Flatten([]) == w.returned
  {}

  lemma FlattenTwo(returned: seq<byte>, packets: seq<Packet>)
    requires packets != []
    ensures returned + packets[0] + Flatten(packets[1..]) == returned + Flatten(packets)
  {
    assert Flatten(packets) == packets[0] + Flatten(packets[1..]);
  }

  lemma ReadsFirst(w: Wire)
    requires Whole(w) && w.waiting != []
    ensures
      var v := Next(w, DoReceive(MAX_BYTES, false));
      && Whole(v) && v == w.(pendingError := None, returned := w.returned + w.waiting[0], waiting := w.waiting[1..])
      && RunFrom(w, Reads(|w.waiting|)) == RunFrom(v, Reads(|v.waiting|))
  {
    var step := DoReceive(MAX_BYTES, false);
    ReadOne(w);
    WholeStep(w, step);
    hide Next, RunFrom, Whole;
    FromOne(w, step);
    FromJoins(w, [step], Reads(|w.waiting| - 1));
  }

  /** What is under way is stored, then everything is read. */
  function Drain(w: Wire): seq<Step> {
    if w.receiving.Chunk? then [DoStore] + Reads(|Next(w, DoStore).waiting|) else Reads(|w.waiting|)
  }

  lemma DrainsAll(w: Wire)
    requires Whole(w)
    ensures
      var v := RunFrom(w, Drain(w));
      v.waiting == [] && !v.receiving.Chunk? && v.tcp == w.tcp
  {
    if w.receiving.Chunk? {
      var v := Next(w, DoStore);
      WholeStep(w, DoStore);
      assert !v.receiving.Chunk? && v.tcp == w.tcp;
      hide Next;
      FromOne(w, DoStore);
      FromJoins(w, [DoStore], Reads(|v.waiting|));
      ReadsAll(v);
    } else {
      ReadsAll(w);
    }
  }

  /** A drain takes nothing from sockets. */
  lemma {:induction false} ReadsTakeNothing(w: Wire, steps: seq<Step>)
    requires forall i :: 0 <= i < |steps| ==> !steps[i].DoRecv?
    ensures RunFrom(w, steps).taken == w.taken
  {
    if steps != [] {
      hide Next;
      ReadsTakeNothing(w, steps[..|steps|-1]);
      OthersTakeNothing(RunFrom(w, steps[..|steps|-1]), steps[|steps|-1]);
    }
  }

  lemma OthersTakeNothing(w: Wire, step: Step)
    requires !step.DoRecv?
    ensures Next(w, step).taken == w.taken
  {}

  lemma {:induction false} ReadsOnly(n: nat)
    ensures |Reads(n)| == n && forall i :: 0 <= i < n ==> Reads(n)[i] == DoReceive(MAX_BYTES, false)
  {
    if n > 0 { ReadsOnly(n - 1); }
  }

  /** From every reachable state of a stream, a model that reads on gets every byte that arrived. */
  lemma EverythingArrives(steps: seq<Step>)
    ensures
      var v := Run(true, steps + Drain(Run(true, steps)));
      v.returned == Flatten(Arrivals(true, steps)) && v.waiting == []
  {
    hide Run, Flatten, Next;
    var w := Run(true, steps);
    EveryRunWhole(true, steps);
    RunJoins(true, steps, Drain(w));
    DrainsAll(w);
    ReadsOnly(|w.waiting|);
    ReadsOnly(|Next(w, DoStore).waiting|);
    ReadsTakeNothing(w, Drain(w));
    TakenIsArrivals(true, steps);
    StreamIsPreserved(steps + Drain(w));
    assert Flatten([]) == [] by { FlattenNothing(); }
    hide Drain;
    var v := Run(true, steps + Drain(w));
    assert v.returned + [] + [] == v.returned;
  }

  lemma FlattenNothing()
    ensures Flatten([]) == []
  {}

  // ----- sending

  /** The socket takes what is left of the packet under way. */
  function Push(w: Wire): seq<Step> { if w.outgoing == [] then [] else [DoTransmit(Took(|Rest(w)|))] }

  /** Then it takes every queued packet. */
  function Flush(packets: seq<Packet>): seq<Step> {
    if packets == [] then [] else [DoDequeue, DoTransmit(Took(|packets[0]|))] + Flush(packets[1..])
  }

  ghost predicate Sending(w: Wire) {
    && w.status == Up && w.open && !w.dropping && (!w.tcp ==> w.offset == 0)
    && w.offset <= |w.outgoing| && (w.outgoing == [] || w.offset < |w.outgoing|)
    && forall p :: p in w.unsent ==> p != []
  }

  lemma PushOne(w: Wire)
    requires Sending(w)
    ensures RunFrom(w, Push(w)) == w.(sent := w.sent + Rest(w), outgoing := [], offset := if w.outgoing == [] then w.offset else 0)
  {
    if w.outgoing == [] {
      assert w.sent + Rest(w) == w.sent;
    } else {
      FromOne(w, DoTransmit(Took(|Rest(w)|)));
      assert w.outgoing[w.offset..][..|Rest(w)|] == Rest(w);
    }
  }

  lemma FlushOne(w: Wire)
    requires Sending(w) && w.outgoing == [] && w.unsent != []
    ensures
      var p := w.unsent[0];
      Next(Next(w, DoDequeue), DoTransmit(Took(|p|))) == w.(sent := w.sent + p, unsent := w.unsent[1..], outgoing := [], offset := 0)
  {
    var p := w.unsent[0];
    assert p in w.unsent && p[0..][..|p|] == p;
    assert Next(w, DoDequeue) == w.(outgoing := p, offset := 0, unsent := w.unsent[1..]);
  }

  lemma {:induction false} FlushesAll(w: Wire)
    requires Sending(w) && w.outgoing == []
    ensures
      var v := RunFrom(w, Flush(w.unsent));
      v.unsent == [] && v.sent == w.sent + Flatten(w.unsent) && v.outgoing == [] && v.accepted == w.accepted
    decreases |w.unsent|
  {
    hide Next, RunFrom, Sending, Flatten;
    if w.unsent == [] {
      FlushesNothing(w);
    } else {
      FlushesFirst(w);
      FlushesAll(w.(sent := w.sent + w.unsent[0], unsent := w.unsent[1..], outgoing := [], offset := 0));
      FlattenTwo(w.sent, w.unsent);
    }
  }

  lemma FlushesNothing(w: Wire)
    requires w.unsent == []
    ensures RunFrom(w, Flush([])) == w && w.sent + Flatten([]) == w.sent
  {}

  lemma FlushesFirst(w: Wire)
    requires Sending(w) && w.outgoing == [] && w.unsent != []
    ensures
      var v := w.(sent := w.sent + w.unsent[0], unsent := w.unsent[1..], outgoing := [], offset := 0);
      Sending(v) && RunFrom(w, Flush(w.unsent)) == RunFrom(v, Flush(v.unsent))
  {
    var p := w.unsent[0];
    var first := [DoDequeue, DoTransmit(Took(|p|))];
    FlushOne(w);
    assert forall q :: q in w.unsent[1..] ==> q in w.unsent;
    hide Next;
    FromTwo(w, DoDequeue, DoTransmit(Took(|p|)));
    FromJoins(w, first, Flush(w.unsent[1..]));
  }

  lemma FromTwo(w: Wire, a: Step, b: Step)
    ensures RunFrom(w, [a, b]) == Next(Next(w, a), b)
  {
    hide Next;
    FromOne(w, a);
    assert [a, b][..1] == [a];
  }

  /** From every reachable state of a connection that is up, a socket that takes everything gets
      every byte accepted for that connection, streams and datagrams alike. */
  lemma EverythingIsSent(tcp: bool, steps: seq<Step>)
    requires Run(tcp, steps).status == Up && Run(tcp, steps).open
    ensures
      var w := Run(tcp, steps);
      var v := Run(tcp, steps + (Push(w) + Flush(w.unsent)));
      v.sent == v.accepted == OfferedNow(tcp, steps) && v.unsent == [] && v.outgoing == []
  {
    hide Run;
    var w := Run(tcp, steps);
    EveryRunWhole(tcp, steps);
    Reachable(tcp, steps);
    SentIsTaken(tcp, steps);
    NothingStaleIsSent(tcp, steps);
    assert Sending(w);
    RunJoins(tcp, steps, Push(w) + Flush(w.unsent));
    FromJoins(w, Push(w), Flush(w.unsent));
    PushOne(w);
    FlushesAll(RunFrom(w, Push(w)));
    hide Flatten, Rest, WireOk, Whole, Sending, Push, Flush;
  }
}
