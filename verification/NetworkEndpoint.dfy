/** One network endpoint shared by the model thread and its worker.

    Every critical section under `queue_lock`, and every socket call of the worker, is one
    step. A `Wire` is the endpoint's state as a value, with ledgers of what was accepted from
    the model, sent on the current connection, taken from sockets and handed out; the theorems
    speak about every sequence of steps on it. The class does each step in place, on circular
    queues, and is proved to do exactly that. The socket is foreign: it accepts some bytes of
    what it is offered, yields any chunk, or fails. */
module NetworkEndpoint {
  import opened CircularQueue
  import opened Common

  type Packet = seq<byte>

  const QUEUE_CAPACITY: nat := 64
  const MAX_BYTES: nat := 4096

  /** `Up` is the source's SIMRT_NET_OK. */
  datatype Status = Up | Pending | Busy | Invalid | SocketError | BindError | ConnectError | QueueFull | IoError | Truncated

  /** What the worker holds of a receive that is under way. */
  datatype Receiving = Nothing | RoomSeen | Chunk(packet: Packet)

  /** A finished connection: what it sent, and what had been accepted for it. */
  datatype Link = Link(sent: seq<byte>, accepted: seq<byte>)

  function Flatten(packets: seq<Packet>): seq<byte> {
    if packets == [] then [] else packets[0] + Flatten(packets[1..])
  }

  lemma {:induction false} FlattenPush(packets: seq<Packet>, p: Packet)
    ensures Flatten(packets + [p]) == Flatten(packets) + p
  {
    if packets == [] {
      assert [p][1..] == [];
      assert packets + [p] == [p];
    } else {
      FlattenPush(packets[1..], p);
      assert (packets + [p])[1..] == packets[1..] + [p];
    }
  }

  lemma FlattenFront(packets: seq<Packet>, p: Packet)
    requires packets != []
    ensures Flatten(packets) == packets[0] + Flatten(packets[1..])
    ensures Flatten([p] + packets[1..]) == p + Flatten(packets[1..])
  {
    assert ([p] + packets[1..])[1..] == packets[1..];
  }

  /** Transmit side. Up: what was accepted is what was sent, what is being sent, what is queued.
      Not up: nothing of an old connection is left to be sent. */
  ghost predicate SendLedger(status: Status, open: bool, dropping: bool, rest: seq<byte>, queued: seq<Packet>, sent: seq<byte>, accepted: seq<byte>) {
    && (status == Up ==> open || dropping)
    && (dropping ==> status == Up && !open && rest == [] && sent <= accepted)
    && (status == Up && !dropping ==> sent + rest + Flatten(queued) == accepted)
    && (status != Up ==> rest == [] && queued == [] && sent == [] && accepted == [])
  }

  /** Receive side of a stream: nothing is lost, duplicated or reordered, and a chunk under way has room. */
  ghost predicate ReceiveLedger(tcp: bool, receiving: Receiving, queued: seq<Packet>, taken: seq<byte>, returned: seq<byte>) {
    tcp ==>
      && returned + Flatten(queued) + (if receiving.Chunk? then receiving.packet else []) == taken
      && (receiving != Nothing ==> |queued| < QUEUE_CAPACITY)
  }

  ghost predicate AllPrefixes(links: seq<Link>) { forall l :: l in links ==> l.sent <= l.accepted }

  lemma AcceptKeeps(open: bool, dropping: bool, rest: seq<byte>, queued: seq<Packet>, sent: seq<byte>, accepted: seq<byte>, data: Packet)
    requires SendLedger(Up, open, dropping, rest, queued, sent, accepted)
    ensures SendLedger(Up, open, dropping, rest, queued + [data], sent, accepted + data)
  {
    FlattenPush(queued, data);
    assert sent + rest + (Flatten(queued) + data) == sent + rest + Flatten(queued) + data;
  }

  lemma DequeueKeeps(open: bool, queued: seq<Packet>, sent: seq<byte>, accepted: seq<byte>)
    requires queued != [] && SendLedger(Up, open, false, [], queued, sent, accepted)
    ensures SendLedger(Up, open, false, queued[0], queued[1..], sent, accepted)
  {
    FlattenFront(queued, queued[0]);
    assert sent + [] + (queued[0] + Flatten(queued[1..])) == sent + queued[0] + Flatten(queued[1..]);
  }

  lemma TransmitKeeps(open: bool, rest: seq<byte>, queued: seq<Packet>, sent: seq<byte>, accepted: seq<byte>, n: nat)
    requires n <= |rest| && SendLedger(Up, open, false, rest, queued, sent, accepted)
    ensures SendLedger(Up, open, false, rest[n..], queued, sent + rest[..n], accepted)
  {
    assert rest == rest[..n] + rest[n..];
    assert sent + rest + Flatten(queued) == sent + rest[..n] + rest[n..] + Flatten(queued);
  }

  lemma DropKeeps(open: bool, rest: seq<byte>, queued: seq<Packet>, sent: seq<byte>, accepted: seq<byte>)
    requires SendLedger(Up, open, false, rest, queued, sent, accepted)
    ensures SendLedger(Up, false, true, [], queued, sent, accepted)
  {
    assert sent + rest + Flatten(queued) == sent + (rest + Flatten(queued));
  }

  /** An endpoint that is not up has nothing left to send: it may come up, or stay down, as it is. */
  lemma NothingLeftToSend(status: Status, why: Status, open: bool, dropping: bool, rest: seq<byte>, queued: seq<Packet>, sent: seq<byte>, accepted: seq<byte>)
    requires status != Up && SendLedger(status, open, dropping, rest, queued, sent, accepted)
    requires why != Up
    ensures rest == [] && queued == [] && sent == [] && accepted == [] && !dropping
    ensures SendLedger(Up, true, false, rest, queued, sent, accepted)
    ensures SendLedger(why, open, dropping, rest, queued, sent, accepted)
  {}

  lemma TakeKeeps(tcp: bool, queued: seq<Packet>, taken: seq<byte>, returned: seq<byte>, chunk: Packet)
    requires ReceiveLedger(tcp, RoomSeen, queued, taken, returned)
    ensures ReceiveLedger(tcp, Chunk(chunk), queued, taken + chunk, returned)
  {}

  lemma StoreKeeps(tcp: bool, queued: seq<Packet>, taken: seq<byte>, returned: seq<byte>, chunk: Packet)
    requires ReceiveLedger(tcp, Chunk(chunk), queued, taken, returned)
    ensures ReceiveLedger(tcp, Nothing, queued + [chunk], taken, returned)
  {
    FlattenPush(queued, chunk);
    assert returned + (Flatten(queued) + chunk) + [] == returned + Flatten(queued) + chunk;
  }

  /** Handing out `n` bytes of the front chunk, whether the chunk is used up or cut. */
  lemma HandOutKeeps(tcp: bool, receiving: Receiving, queued: seq<Packet>, taken: seq<byte>, returned: seq<byte>, n: nat)
    requires queued != [] && n <= |queued[0]| && ReceiveLedger(tcp, receiving, queued, taken, returned)
    ensures ReceiveLedger(tcp, receiving, [queued[0][n..]] + queued[1..], taken, returned + queued[0][..n])
    ensures n == |queued[0]| ==> ReceiveLedger(tcp, receiving, queued[1..], taken, returned + queued[0][..n])
  {
    var front, rest := queued[0], Flatten(queued[1..]);
    var under := if receiving.Chunk? then receiving.packet else [];
    FlattenFront(queued, front[n..]);
    assert front == front[..n] + front[n..];
    assert returned + (front[..n] + front[n..] + rest) + under == returned + front[..n] + (front[n..] + rest) + under;
    if n == |front| {
      assert returned + (front + rest) + under == returned + front + rest + under;
      assert front[..n] == front;
    }
  }

  lemma NothingSent()
    ensures SendLedger(Pending, false, false, [], [], [], [])
  {}

  lemma NoStream(receiving: Receiving, queued: seq<Packet>, taken: seq<byte>, returned: seq<byte>)
    ensures ReceiveLedger(false, receiving, queued, taken, returned)
  {}

  datatype SendReply = Took(count: nat) | WouldBlock | Broken
  datatype ReceiveReply = Got(chunk: Packet) | Empty | Closed

  // ----- the endpoint as a value

  /** `unsent` and `waiting` are the transmit and the receive queue. `dropping`: the socket is
      closed, the queue not yet reset. */
  datatype Wire = Wire(
    tcp: bool, status: Status, pendingError: Option<Status>,
    open: bool, dropping: bool, outgoing: Packet, offset: nat, receiving: Receiving,
    unsent: seq<Packet>, waiting: seq<Packet>,
    accepted: seq<byte>, sent: seq<byte>, taken: seq<byte>, returned: seq<byte>, links: seq<Link>)

  /** One atomic step of the model thread or of the worker, with what its surroundings answer. */
  datatype Step =
    | DoSend(data: Packet, busy: bool) | DoReceive(capacity: nat, busy: bool)
    | DoComeUp | DoStayDown(why: Status) | DoDequeue | DoTransmit(sent: SendReply) | DoClose | DoReset
    | DoLook | DoRecv(got: ReceiveReply) | DoStore

  function Fresh(tcp: bool): Wire {
    Wire(tcp, Pending, None, false, false, [], 0, Nothing, [], [], [], [], [], [], [])
  }

  /** What is left of the packet under way. */
  function Rest(w: Wire): seq<byte> { if w.offset <= |w.outgoing| then w.outgoing[w.offset..] else [] }

  function UnderWay(w: Wire): seq<byte> { if w.receiving.Chunk? then w.receiving.packet else [] }

  predicate Sendable(data: Packet) { 0 < |data| <= MAX_BYTES }

  function SendResult(w: Wire, data: Packet, busy: bool): Status {
    if !Sendable(data) then Invalid
    else if busy then Busy
    else if w.status == Up && |w.unsent| >= QUEUE_CAPACITY then QueueFull
    else w.status
  }

  predicate Readable(capacity: nat, busy: bool) { 0 < capacity <= MAX_BYTES && !busy }

  /** What `receive` hands to the model. */
  function HandedOut(w: Wire, capacity: nat, busy: bool): Option<Packet> {
    if Readable(capacity, busy) && w.waiting != [] then Some(w.waiting[0][..Min(|w.waiting[0]|, capacity)]) else None
  }

  function ReceiveResult(w: Wire, capacity: nat, busy: bool): Status {
    if !(0 < capacity <= MAX_BYTES) then Invalid
    else if busy then Busy
    else if w.waiting != [] && !w.tcp && |w.waiting[0]| > capacity then Truncated
    else if w.pendingError.Some? then w.pendingError.value
    else w.status
  }

  function AfterReceive(w: Wire, capacity: nat, busy: bool): Wire {
    if !Readable(capacity, busy) then w
    else
      var v := w.(pendingError := None);
      if w.waiting == [] then v
      else
        var front := w.waiting[0];
        v.(returned := w.returned + front[..Min(|front|, capacity)],
          waiting := (if w.tcp && |front| > capacity then [front[capacity..]] else []) + w.waiting[1..])
  }

  /** The socket did not fail: a datagram goes as a whole. */
  predicate Fine(w: Wire, reply: SendReply) {
    reply.WouldBlock? || (reply.Took? && reply.count > 0 && (w.tcp || reply.count == |w.outgoing|))
  }

  function AfterTransmit(w: Wire, reply: SendReply): Wire {
    if !Fine(w, reply) || !reply.Took? || w.offset + reply.count > |w.outgoing| then w
    else
      var v := w.(sent := w.sent + w.outgoing[w.offset..][..reply.count]);
      if w.offset + reply.count == |w.outgoing| then v.(outgoing := [], offset := 0) else v.(offset := w.offset + reply.count)
  }

  function AfterRecv(w: Wire, reply: ReceiveReply): Wire {
    if reply.Got? && |reply.chunk| <= MAX_BYTES then w.(receiving := Chunk(reply.chunk), taken := w.taken + reply.chunk)
    else w.(receiving := Nothing, pendingError := if reply.Got? then Some(Truncated) else w.pendingError)
  }

  /** The transmit queue is emptied and the status goes down; received chunks stay. */
  function AfterReset(w: Wire): Wire {
    w.(unsent := [], status := Pending, pendingError := Some(IoError), dropping := false,
      sent := [], accepted := [], links := w.links + [Link(w.sent, w.accepted)])
  }

  /** Which steps can be taken; the worker takes its own in the order its code gives them. */
  predicate Possible(w: Wire, step: Step) {
    match step
    case DoSend(_, _) => true
    case DoReceive(_, _) => true
    case DoComeUp => w.status != Up
    case DoStayDown(why) => w.status != Up && why != Up
    case DoDequeue => w.open && !w.dropping && w.status == Up
    case DoTransmit(reply) => w.open && w.status == Up && w.outgoing != [] && (reply.Took? ==> reply.count <= |Rest(w)|)
    case DoClose => w.open && w.status == Up && w.receiving == Nothing
    case DoReset => w.dropping
    case DoLook => w.receiving == Nothing
    case DoRecv(reply) => w.receiving == RoomSeen && (reply.Got? && w.tcp ==> 0 < |reply.chunk| <= MAX_BYTES)
    case DoStore => w.receiving.Chunk?
  }

  function After(w: Wire, step: Step): Wire
    requires Possible(w, step)
  {
    match step
    case DoSend(data, busy) =>
      if SendResult(w, data, busy) == Up then w.(unsent := w.unsent + [data], accepted := w.accepted + data) else w
    case DoReceive(capacity, busy) => AfterReceive(w, capacity, busy)
    case DoComeUp => w.(status := Up, open := true, dropping := false)
    case DoStayDown(why) => w.(status := why)
    case DoDequeue =>
      if w.outgoing != [] || w.unsent == [] then w else w.(outgoing := w.unsent[0], offset := 0, unsent := w.unsent[1..])
    case DoTransmit(reply) => AfterTransmit(w, reply)
    case DoClose => w.(open := false, dropping := true, outgoing := [], offset := 0)
    case DoReset => AfterReset(w)
    case DoLook => w.(receiving := if w.tcp && |w.waiting| == QUEUE_CAPACITY then Nothing else RoomSeen)
    case DoRecv(reply) => AfterRecv(w, reply)
    case DoStore =>
      if |w.waiting| >= QUEUE_CAPACITY then w.(receiving := Nothing, pendingError := Some(QueueFull))
      else w.(receiving := Nothing, waiting := w.waiting + [w.receiving.packet])
  }

  /** A step that cannot be taken is skipped. */
  function Next(w: Wire, step: Step): Wire { if Possible(w, step) then After(w, step) else w }

  function Run(tcp: bool, steps: seq<Step>): Wire {
    if steps == [] then Fresh(tcp) else Next(Run(tcp, steps[..|steps|-1]), steps[|steps|-1])
  }

  ghost predicate WireOk(w: Wire) {
    && |w.unsent| <= QUEUE_CAPACITY && |w.waiting| <= QUEUE_CAPACITY
    && (forall p :: p in w.unsent ==> p != [])
    && w.offset <= |w.outgoing| && (w.outgoing == [] || w.offset < |w.outgoing|)
    && SendLedger(w.status, w.open, w.dropping, Rest(w), w.unsent, w.sent, w.accepted)
    && ReceiveLedger(w.tcp, w.receiving, w.waiting, w.taken, w.returned)
    && AllPrefixes(w.links)
  }

  lemma SendKeeps(w: Wire, data: Packet, busy: bool)
    requires WireOk(w)
    ensures WireOk(After(w, DoSend(data, busy)))
  {
    if SendResult(w, data, busy) == Up {
      AcceptKeeps(w.open, w.dropping, Rest(w), w.unsent, w.sent, w.accepted, data);
    }
    hide SendLedger, ReceiveLedger, AllPrefixes;
  }

  lemma ReceiveKeeps(w: Wire, capacity: nat, busy: bool)
    requires WireOk(w)
    ensures WireOk(AfterReceive(w, capacity, busy))
  {
    hide SendLedger, ReceiveLedger, AllPrefixes;
    if Readable(capacity, busy) && w.waiting != [] {
      var front := w.waiting[0];
      HandOutKeeps(w.tcp, w.receiving, w.waiting, w.taken, w.returned, Min(|front|, capacity));
      assert [] + w.waiting[1..] == w.waiting[1..];
      if !w.tcp { NoStream(w.receiving, w.waiting[1..], w.taken, w.returned + front[..Min(|front|, capacity)]); }
    }
  }

  lemma RestSame(w: Wire, v: Wire)
    requires v.outgoing == w.outgoing && v.offset == w.offset
    ensures Rest(v) == Rest(w)
  {}

  lemma ComeUpKeeps(w: Wire)
    requires WireOk(w) && Possible(w, DoComeUp)
    ensures WireOk(After(w, DoComeUp))
  {
    hide SendLedger, ReceiveLedger, AllPrefixes, Flatten, Rest;
    RestSame(w, After(w, DoComeUp));
    NothingLeftToSend(w.status, Pending, w.open, w.dropping, Rest(w), w.unsent, w.sent, w.accepted);
  }

  lemma StayDownKeeps(w: Wire, why: Status)
    requires WireOk(w) && Possible(w, DoStayDown(why))
    ensures WireOk(After(w, DoStayDown(why)))
  {
    hide SendLedger, ReceiveLedger, AllPrefixes, Flatten, Rest;
    RestSame(w, After(w, DoStayDown(why)));
    NothingLeftToSend(w.status, why, w.open, w.dropping, Rest(w), w.unsent, w.sent, w.accepted);
  }

  lemma DequeueStepKeeps(w: Wire)
    requires WireOk(w) && Possible(w, DoDequeue)
    ensures WireOk(After(w, DoDequeue))
  {
    hide SendLedger, ReceiveLedger, AllPrefixes;
    if w.outgoing == [] && w.unsent != [] {
      assert Rest(w) == [] && w.unsent[0] in w.unsent;
      DequeueKeeps(w.open, w.unsent, w.sent, w.accepted);
      var v := After(w, DoDequeue);
      assert v.outgoing == w.unsent[0] && v.offset == 0 && Rest(v) == w.unsent[0];
      assert forall p :: p in v.unsent ==> p in w.unsent;
    }
  }

  lemma OpenIsNotDropping(w: Wire)
    requires WireOk(w) && w.open
    ensures !w.dropping
  {}

  lemma TransmitStepKeeps(w: Wire, reply: SendReply)
    requires WireOk(w) && Possible(w, DoTransmit(reply))
    ensures WireOk(AfterTransmit(w, reply))
  {
    OpenIsNotDropping(w);
    hide SendLedger, ReceiveLedger, AllPrefixes;
    if Fine(w, reply) && reply.Took? {
      TransmitKeeps(w.open, Rest(w), w.unsent, w.sent, w.accepted, reply.count);
      assert Rest(AfterTransmit(w, reply)) == Rest(w)[reply.count..];
    }
  }

  lemma CloseKeeps(w: Wire)
    requires WireOk(w) && Possible(w, DoClose)
    ensures WireOk(After(w, DoClose))
  {
    OpenIsNotDropping(w);
    hide SendLedger, ReceiveLedger, AllPrefixes;
    DropKeeps(w.open, Rest(w), w.unsent, w.sent, w.accepted);
  }

  lemma ResetKeeps(w: Wire)
    requires WireOk(w) && Possible(w, DoReset)
    ensures WireOk(After(w, DoReset))
  {
    hide Flatten, ReceiveLedger, AllPrefixes;
    assert w.sent <= w.accepted && Rest(w) == [] && w.outgoing == [];
    hide SendLedger;
    NothingSent();
    PrefixesMore(w.links, Link(w.sent, w.accepted));
  }

  lemma PrefixesMore(links: seq<Link>, l: Link)
    requires AllPrefixes(links) && l.sent <= l.accepted
    ensures AllPrefixes(links + [l])
  {}

  lemma LookKeeps(w: Wire)
    requires WireOk(w) && Possible(w, DoLook)
    ensures WireOk(After(w, DoLook))
  {
    hide SendLedger, AllPrefixes;
  }

  lemma RecvKeeps(w: Wire, reply: ReceiveReply)
    requires WireOk(w) && Possible(w, DoRecv(reply))
    ensures WireOk(AfterRecv(w, reply))
  {
    hide SendLedger, AllPrefixes;
    if reply.Got? && |reply.chunk| <= MAX_BYTES { TakeKeeps(w.tcp, w.waiting, w.taken, w.returned, reply.chunk); }
  }

  lemma StreamHasRoom(receiving: Receiving, queued: seq<Packet>, taken: seq<byte>, returned: seq<byte>)
    requires receiving != Nothing && ReceiveLedger(true, receiving, queued, taken, returned)
    ensures |queued| < QUEUE_CAPACITY
  {}

  lemma StoreStepKeeps(w: Wire)
    requires WireOk(w) && Possible(w, DoStore)
    ensures WireOk(After(w, DoStore))
  {
    hide SendLedger, ReceiveLedger, AllPrefixes;
    if w.tcp { StreamHasRoom(w.receiving, w.waiting, w.taken, w.returned); }
    StoreKeeps(w.tcp, w.waiting, w.taken, w.returned, w.receiving.packet);
    if !w.tcp { NoStream(Nothing, w.waiting, w.taken, w.returned); }
  }

  lemma AfterKeeps(w: Wire, step: Step)
    requires WireOk(w) && Possible(w, step)
    ensures WireOk(After(w, step))
  {
    hide WireOk;
    match step
    case DoSend(data, busy) => SendKeeps(w, data, busy);
    case DoReceive(capacity, busy) => ReceiveKeeps(w, capacity, busy);
    case DoComeUp => ComeUpKeeps(w);
    case DoStayDown(why) => StayDownKeeps(w, why);
    case DoDequeue => DequeueStepKeeps(w);
    case DoTransmit(reply) => TransmitStepKeeps(w, reply);
    case DoClose => CloseKeeps(w);
    case DoReset => ResetKeeps(w);
    case DoLook => LookKeeps(w);
    case DoRecv(reply) => RecvKeeps(w, reply);
    case DoStore => StoreStepKeeps(w);
  }

  lemma SameKind(w: Wire, step: Step)
    ensures Next(w, step).tcp == w.tcp
  {}

  lemma FreshOk(tcp: bool)
    ensures WireOk(Fresh(tcp))
  {}

  lemma {:induction false} Reachable(tcp: bool, steps: seq<Step>)
    ensures WireOk(Run(tcp, steps)) && Run(tcp, steps).tcp == tcp
  {
    if steps == [] {
      FreshOk(tcp);
    } else {
      hide WireOk, Possible, After;
      Reachable(tcp, steps[..|steps|-1]);
      var w, step := Run(tcp, steps[..|steps|-1]), steps[|steps|-1];
      if Possible(w, step) { AfterKeeps(w, step); }
      SameKind(w, step);
    }
  }

  // ----- what the steps bring, without the ledgers

  /** The chunk that this step takes from the socket. */
  function ArrivalOf(w: Wire, step: Step): seq<Packet> {
    if Possible(w, step) && step.DoRecv? && step.got.Got? && |step.got.chunk| <= MAX_BYTES then [step.got.chunk] else []
  }

  /** Every chunk that a socket yielded and that was not too long, in order. */
  function Arrivals(tcp: bool, steps: seq<Step>): seq<Packet> {
    if steps == [] then []
    else Arrivals(tcp, steps[..|steps|-1]) + ArrivalOf(Run(tcp, steps[..|steps|-1]), steps[|steps|-1])
  }

  lemma TakenStep(w: Wire, step: Step)
    ensures Next(w, step).taken == w.taken + Flatten(ArrivalOf(w, step))
  {
    if step.DoRecv? && step.got.Got? {
      assert Flatten([step.got.chunk]) == step.got.chunk;
    }
  }

  /** The bytes taken are those of the chunks that arrived. */
  lemma {:induction false} TakenIsArrivals(tcp: bool, steps: seq<Step>)
    ensures Run(tcp, steps).taken == Flatten(Arrivals(tcp, steps))
  {
    if steps != [] {
      hide Next, ArrivalOf, Flatten;
      var front, w := steps[..|steps|-1], Run(tcp, steps[..|steps|-1]);
      TakenIsArrivals(tcp, front);
      TakenStep(w, steps[|steps|-1]);
      FlattenJoins(Arrivals(tcp, front), ArrivalOf(w, steps[|steps|-1]));
    } else {
      assert Flatten([]) == [];
    }
  }

  lemma {:induction false} FlattenJoins(a: seq<Packet>, b: seq<Packet>)
    ensures Flatten(a + b) == Flatten(a) + Flatten(b)
  {
    if a == [] {
      assert a + b == b;
    } else {
      FlattenJoins(a[1..], b);
      var rest := a[1..];
      assert (a + b)[1..] == rest + b && (a + b)[0] == a[0];
      assert a[0] + (Flatten(rest) + Flatten(b)) == (a[0] + Flatten(rest)) + Flatten(b);
    }
  }

  /** In every interleaving of model thread and worker, with any read capacities: what `receive`
      returned, what is queued and what is under way are together exactly the bytes of all chunks
      that arrived, in order. Nothing of a stream is dropped. */
  lemma {:induction false} StreamIsPreserved(steps: seq<Step>)
    ensures
      var w := Run(true, steps);
      && w.returned + Flatten(w.waiting) + UnderWay(w) == w.taken == Flatten(Arrivals(true, steps))
      && |w.waiting| <= QUEUE_CAPACITY
  {
    hide Run, SendLedger, AllPrefixes, Flatten;
    Reachable(true, steps);
    TakenIsArrivals(true, steps);
  }

  // ----- datagrams

  /** A datagram leaves the receive queue for the model. */
  predicate Pops(w: Wire, step: Step) { step.DoReceive? && Readable(step.capacity, step.busy) && w.waiting != [] }

  /** The datagrams that arrived, but for those that found the queue full. */
  function Kept(steps: seq<Step>): seq<Packet> {
    if steps == [] then []
    else
      var front, step := steps[..|steps|-1], steps[|steps|-1];
      var kept, w := Kept(front), Run(false, front);
      if step.DoStore? && w.receiving.Chunk? && |w.waiting| == QUEUE_CAPACITY && kept != [] then kept[..|kept|-1]
      else kept + ArrivalOf(w, step)
  }

  /** How many datagrams were handed to the model. */
  function Popped(steps: seq<Step>): nat {
    if steps == [] then 0
    else Popped(steps[..|steps|-1]) + if Pops(Run(false, steps[..|steps|-1]), steps[|steps|-1]) then 1 else 0
  }

  /** What the model got: of each kept datagram in turn as much as its buffer takes. */
  function Given(steps: seq<Step>): seq<byte> {
    if steps == [] then []
    else
      var front, step := steps[..|steps|-1], steps[|steps|-1];
      Given(front)
        + if Pops(Run(false, front), step) && Popped(front) < |Kept(front)| then CutTo(Kept(front)[Popped(front)], step.capacity) else []
  }

  function CutTo(packet: Packet, capacity: nat): Packet { packet[..Min(|packet|, capacity)] }

  ghost predicate InboxOk(w: Wire, kept: seq<Packet>, popped: nat) {
    && popped <= |kept| && !w.tcp && |w.waiting| <= QUEUE_CAPACITY
    && w.waiting + (if w.receiving.Chunk? then [w.receiving.packet] else []) == kept[popped..]
  }

  lemma InboxStep(w: Wire, kept: seq<Packet>, popped: nat, step: Step)
    requires InboxOk(w, kept, popped)
    ensures
      var more := if step.DoStore? && w.receiving.Chunk? && |w.waiting| == QUEUE_CAPACITY && kept != [] then kept[..|kept|-1]
        else kept + ArrivalOf(w, step);
      InboxOk(Next(w, step), more, popped + if Pops(w, step) then 1 else 0)
    ensures Pops(w, step) ==> popped < |kept| && Next(w, step).returned == w.returned + CutTo(kept[popped], step.capacity)
    ensures !Pops(w, step) ==> Next(w, step).returned == w.returned
  {
    if step.DoReceive? {
      InboxReads(w, kept, popped, step.capacity, step.busy);
    } else if step.DoRecv? || step.DoStore? {
      InboxTakes(w, kept, popped, step);
    } else {
      InboxStays(w, step);
      assert kept + [] == kept;
    }
  }

  lemma InboxReads(w: Wire, kept: seq<Packet>, popped: nat, capacity: nat, busy: bool)
    requires InboxOk(w, kept, popped)
    ensures
      var step := DoReceive(capacity, busy);
      && InboxOk(Next(w, step), kept + [], popped + if Pops(w, step) then 1 else 0)
      && (Pops(w, step) ==> popped < |kept| && Next(w, step).returned == w.returned + CutTo(kept[popped], step.capacity))
      && (!Pops(w, step) ==> Next(w, step).returned == w.returned)
  {
    assert kept + [] == kept;
    if Pops(w, DoReceive(capacity, busy)) {
      assert w.waiting[0] == kept[popped..][0] && kept[popped..][1..] == kept[popped + 1..];
      assert [] + w.waiting[1..] == w.waiting[1..];
    }
  }

  lemma InboxTakes(w: Wire, kept: seq<Packet>, popped: nat, step: Step)
    requires InboxOk(w, kept, popped) && (step.DoRecv? || step.DoStore?)
    ensures
      var more := if step.DoStore? && w.receiving.Chunk? && |w.waiting| == QUEUE_CAPACITY && kept != [] then kept[..|kept|-1]
        else kept + ArrivalOf(w, step);
      InboxOk(Next(w, step), more, popped) && Next(w, step).returned == w.returned
  {
    assert kept + [] == kept && w.waiting + [] == w.waiting;
    if w.receiving.Chunk? {
      var waits := w.waiting + [w.receiving.packet];
      assert kept != [] && kept[..|kept|-1][popped..] == waits[..|w.waiting|] == w.waiting;
    }
  }

  /** The other steps do not touch what was received. */
  lemma InboxStays(w: Wire, step: Step)
    requires !step.DoReceive? && !step.DoRecv? && !step.DoStore?
    ensures var v := Next(w, step);
      && v.tcp == w.tcp && v.waiting == w.waiting && v.returned == w.returned
      && v.receiving.Chunk? == w.receiving.Chunk? && (w.receiving.Chunk? ==> v.receiving == w.receiving)
  {
    match step
    case DoSend(data, busy) =>
    case DoComeUp =>
    case DoStayDown(why) =>
    case DoDequeue =>
    case DoTransmit(reply) =>
    case DoClose =>
    case DoReset =>
    case DoLook =>
  }

  /** In every interleaving, for datagrams: the model got exactly the datagrams that arrived, in
      order, each cut to its buffer, but for those that found the queue full; the others wait. */
  lemma {:induction false} DatagramsArrive(steps: seq<Step>)
    ensures InboxOk(Run(false, steps), Kept(steps), Popped(steps)) && Run(false, steps).returned == Given(steps)
  {
    if steps != [] {
      hide Next, ArrivalOf, Pops, CutTo;
      DatagramsArrive(steps[..|steps|-1]);
      InboxStep(Run(false, steps[..|steps|-1]), Kept(steps[..|steps|-1]), Popped(steps[..|steps|-1]), steps[|steps|-1]);
      hide InboxOk;
    }
  }

  // ----- the send side

  /** The data this step leaves for the connection: a `send` of proper length, the lock free, the
      endpoint up and the queue not full. */
  function OfferOf(w: Wire, step: Step): seq<byte> {
    if step.DoSend? && 0 < |step.data| <= MAX_BYTES && !step.busy && w.status == Up && |w.unsent| < QUEUE_CAPACITY then step.data else []
  }

  /** The bytes the socket takes: some of a stream, a whole datagram. */
  function TookOf(w: Wire, step: Step): nat {
    if Possible(w, step) && step.DoTransmit? && step.sent.Took? && (w.tcp || step.sent.count == |w.outgoing|) then step.sent.count else 0
  }

  function Ends(w: Wire, step: Step): bool { w.dropping && step.DoReset? }

  /** What the model had accepted since the last connection ended. */
  function OfferedNow(tcp: bool, steps: seq<Step>): seq<byte> {
    if steps == [] then []
    else
      var front, step := steps[..|steps|-1], steps[|steps|-1];
      if Ends(Run(tcp, front), step) then [] else OfferedNow(tcp, front) + OfferOf(Run(tcp, front), step)
  }

  /** How many bytes sockets took since the last connection ended. */
  function TookNow(tcp: bool, steps: seq<Step>): nat {
    if steps == [] then 0
    else
      var front, step := steps[..|steps|-1], steps[|steps|-1];
      if Ends(Run(tcp, front), step) then 0 else TookNow(tcp, front) + TookOf(Run(tcp, front), step)
  }

  lemma SendStep(w: Wire, step: Step)
    requires WireOk(w)
    ensures var v := Next(w, step);
      && v.accepted == (if Ends(w, step) then [] else w.accepted + OfferOf(w, step))
      && |v.sent| == (if Ends(w, step) then 0 else |w.sent| + TookOf(w, step))
      && v.links == w.links + (if Ends(w, step) then [Link(w.sent, w.accepted)] else [])
  {
    hide SendLedger, ReceiveLedger, AllPrefixes;
    match step
    case DoSend(data, busy) =>
    case DoReceive(capacity, busy) =>
    case DoComeUp =>
    case DoStayDown(why) =>
    case DoDequeue =>
    case DoTransmit(reply) =>
    case DoClose =>
    case DoReset =>
    case DoLook =>
    case DoRecv(reply) =>
    case DoStore =>
  }

  /** In every interleaving: what was accepted is what `send` was given and answered well, and what
      was sent is exactly the first of those bytes, as many as the sockets took. */
  lemma {:induction false} SentIsTaken(tcp: bool, steps: seq<Step>)
    ensures Run(tcp, steps).accepted == OfferedNow(tcp, steps)
    ensures TookNow(tcp, steps) <= |OfferedNow(tcp, steps)| && Run(tcp, steps).sent == OfferedNow(tcp, steps)[..TookNow(tcp, steps)]
  {
    hide Next, OfferOf, TookOf, Ends, WireOk;
    SentMany(tcp, steps);
    NothingStaleIsSent(tcp, steps);
    hide Run;
  }

  lemma {:induction false} SentMany(tcp: bool, steps: seq<Step>)
    ensures Run(tcp, steps).accepted == OfferedNow(tcp, steps) && |Run(tcp, steps).sent| == TookNow(tcp, steps)
  {
    if steps != [] {
      hide Next, OfferOf, TookOf, Ends, WireOk;
      SentMany(tcp, steps[..|steps|-1]);
      Reachable(tcp, steps[..|steps|-1]);
      SendStep(Run(tcp, steps[..|steps|-1]), steps[|steps|-1]);
    }
  }

  /** In every interleaving: what each connection sent is a prefix of what was accepted for it; an
      endpoint that is not up has nothing left to send; and on a connection that is up what was
      sent, what is being sent and what is queued are exactly what was accepted for it. */
  lemma {:induction false} NothingStaleIsSent(tcp: bool, steps: seq<Step>)
    ensures
      var w := Run(tcp, steps);
      && (forall l :: l in w.links ==> l.sent <= l.accepted)
      && w.sent <= w.accepted
      && (w.status != Up ==> w.unsent == [] && Rest(w) == [] && w.accepted == [])
      && (w.status == Up && w.open ==> w.sent + Rest(w) + Flatten(w.unsent) == w.accepted)
  {
    hide Run, ReceiveLedger, SendLedger, Flatten, Rest;
    Reachable(tcp, steps);
    var w := Run(tcp, steps);
    LedgerSays(w.status, w.open, w.dropping, Rest(w), w.unsent, w.sent, w.accepted);
  }

  lemma LedgerSays(status: Status, open: bool, dropping: bool, rest: seq<byte>, queued: seq<Packet>, sent: seq<byte>, accepted: seq<byte>)
    requires SendLedger(status, open, dropping, rest, queued, sent, accepted)
    ensures sent <= accepted
    ensures status != Up ==> queued == [] && rest == [] && accepted == []
    ensures status == Up && open ==> sent + rest + Flatten(queued) == accepted
  {
    hide Flatten;
    assert sent + rest + Flatten(queued) == sent + (rest + Flatten(queued));
  }

  // ----- the endpoint in place

  class Endpoint {
    const tcp: bool
    const tx: Queue<Packet>
    const rx: Queue<Packet>
    var status: Status
    var pendingError: Option<Status>
    // owned by the worker
    var open: bool
    var dropping: bool
    var outgoing: Packet
    var offset: nat
    var receiving: Receiving
    // ledgers
    ghost var accepted: seq<byte>  // taken into the queue for the current connection
    ghost var sent: seq<byte>      // given to the socket of the current connection
    ghost var taken: seq<byte>     // received from any connection
    ghost var returned: seq<byte>  // handed to the model
    ghost var links: seq<Link>     // finished connections

    ghost predicate Valid()
      reads this, tx, tx.slots, rx, rx.slots
    {
      && tx != rx && tx.slots != rx.slots
      && tx.Valid() && rx.Valid()
      && tx.slots.Length == QUEUE_CAPACITY == rx.slots.Length
      && WireOk(View())
    }

    ghost function View(): (w: Wire)
      requires tx.Valid() && rx.Valid()
      reads this, tx, tx.slots, rx, rx.slots
    {
      Wire(tcp, status, pendingError, open, dropping, outgoing, offset, receiving, tx.Contents(), rx.Contents(),
        accepted, sent, taken, returned, links)
    }

    /** `simrt_net_configure`: a zeroed endpoint, not yet up. */
    constructor (tcp: bool)
      ensures Valid() && View() == Fresh(tcp)
      ensures fresh(tx) && fresh(tx.slots) && fresh(rx) && fresh(rx.slots)
    {
      this.tcp := tcp;
      var t := new Queue<Packet>(QUEUE_CAPACITY);
      var r := new Queue<Packet>(QUEUE_CAPACITY);
      tx, rx, status, pendingError := t, r, Pending, None;
      open, dropping, outgoing, offset, receiving := false, false, [], 0, Nothing;
      accepted, sent, taken, returned, links := [], [], [], [], [];
      new;
      FreshOk(tcp);
    }

    // ----- model thread

    /** `simrt_net_send`: queued only on a connection that is up and with room, or not at all. */
    method Send(data: Packet, busy: bool) returns (result: Status)
      requires Valid()
      modifies this`accepted, tx`count, tx.slots
      ensures Valid() && View() == After(old(View()), DoSend(data, busy))
      ensures result == SendResult(old(View()), data, busy)
      ensures data == [] || |data| > MAX_BYTES ==> result == Invalid
      ensures 0 < |data| <= MAX_BYTES && busy ==> result == Busy
      ensures 0 < |data| <= MAX_BYTES && !busy ==>
        if status == Up then
          if |old(tx.Contents())| == QUEUE_CAPACITY then result == QueueFull && tx.Contents() == old(tx.Contents())
          else result == Up && tx.Contents() == old(tx.Contents()) + [data] && accepted == old(accepted) + data
        else result == status && tx.Contents() == old(tx.Contents())
    {
      AfterKeeps(View(), DoSend(data, busy));
      hide WireOk, Queue.Contents;
      if !(0 < |data| <= MAX_BYTES) { return Invalid; }
      if busy { return Busy; }
      result := status;
      if result == Up {
        var stored := tx.Push(data);
        if stored { accepted := accepted + data; } else { result := QueueFull; }
      }
    }

    /** `simrt_net_receive`: a stream chunk larger than the buffer keeps its rest at the front of
        the queue; a datagram larger than the buffer is cut and reported. */
    method Receive(capacity: nat, busy: bool) returns (result: Status, data: Packet, valid: bool)
      requires Valid()
      modifies this`pendingError, this`returned, rx`head, rx`count, rx.slots
      ensures Valid() && View() == After(old(View()), DoReceive(capacity, busy))
      ensures result == ReceiveResult(old(View()), capacity, busy)
      ensures HandedOut(old(View()), capacity, busy) == if valid then Some(data) else None
      ensures capacity == 0 || capacity > MAX_BYTES ==> result == Invalid && !valid
      ensures 0 < capacity <= MAX_BYTES && busy ==> result == Busy && !valid
      ensures valid ==> data == old(rx.Contents())[0][..Min(|old(rx.Contents())[0]|, capacity)]
      ensures 0 < capacity <= MAX_BYTES && !busy ==>
        && valid == (old(rx.Contents()) != []) && pendingError == None
        && result == (if valid && !tcp && |old(rx.Contents())[0]| > capacity then Truncated
                      else if old(pendingError).Some? then old(pendingError).value else status)
      ensures returned == old(returned) + data
    {
      AfterKeeps(View(), DoReceive(capacity, busy));
      ghost var w := View();
      hide WireOk, Queue.Contents, AfterTransmit, AfterRecv, SendResult;
      result, data, valid := Invalid, [], false;
      if !(0 < capacity <= MAX_BYTES) { return; }
      if busy { return Busy, data, false; }
      result := if pendingError.Some? then pendingError.value else status;
      pendingError := None;
      if rx.count == 0 { return; }
      var cut;
      data, cut := TakeFront(capacity);
      valid, returned := true, returned + data;
      if cut { result := Truncated; }
      assert View() == AfterReceive(w, capacity, busy);
    }

    /** The front chunk, or as much of it as fits. */
    method TakeFront(capacity: nat) returns (data: Packet, cut: bool)
      requires tx != rx && tx.slots != rx.slots && tx.Valid() && rx.Valid() && rx.Contents() != []
      modifies rx`head, rx`count, rx.slots
      ensures tx.Valid() && rx.Valid() && tx.Contents() == old(tx.Contents())
      ensures
        var chunks := old(rx.Contents());
        && data == chunks[0][..Min(|chunks[0]|, capacity)] && cut == (!tcp && |chunks[0]| > capacity)
        && rx.Contents() == (if tcp && |chunks[0]| > capacity then [chunks[0][capacity..]] else []) + chunks[1..]
    {
      hide Queue.Contents;
      ghost var chunks := rx.Contents();
      var packet := rx.Front();
      data, cut := packet[..Min(|packet|, capacity)], !tcp && |packet| > capacity;
      if |packet| > capacity && tcp {
        rx.ReplaceFront(packet[capacity..]);
      } else {
        var gone := rx.Pop();
        assert [] + chunks[1..] == chunks[1..];
      }
    }

    // ----- worker

    /** A socket is open and its connection established: a new ledger starts. */
    method ComeUp()
      requires Valid() && Possible(View(), DoComeUp)
      modifies this`status, this`open, this`dropping
      ensures Valid() && View() == After(old(View()), DoComeUp)
      ensures sent == [] && accepted == [] && status == Up && open
    {
      NothingLeftToSend(status, Pending, open, dropping, Rest(View()), tx.Contents(), sent, accepted);
      AfterKeeps(View(), DoComeUp);
      hide WireOk, Queue.Contents;
      status, open, dropping := Up, true, false;
    }

    /** Opening or connecting failed, or is still pending. */
    method StayDown(why: Status)
      requires Valid() && Possible(View(), DoStayDown(why))
      modifies this`status
      ensures Valid() && View() == After(old(View()), DoStayDown(why)) && status == why
    {
      AfterKeeps(View(), DoStayDown(why));
      hide WireOk, Queue.Contents;
      status := why;
    }

    /** First half of `transmit`: fetch the next packet when none is under way. */
    method Dequeue()
      requires Valid() && Possible(View(), DoDequeue)
      modifies this`outgoing, this`offset, tx`head, tx`count
      ensures Valid() && View() == After(old(View()), DoDequeue)
      ensures
        if old(outgoing) == [] && old(tx.Contents()) != [] then [outgoing] + tx.Contents() == old(tx.Contents()) && offset == 0
        else outgoing == old(outgoing) && tx.Contents() == old(tx.Contents())
    {
      AfterKeeps(View(), DoDequeue);
      assert outgoing == [] ==> offset == 0;
      hide WireOk, Queue.Contents;
      if outgoing == [] {
        if tx.count > 0 {
          var packet := tx.Pop();
          outgoing := packet.value;
        }
        offset := 0;
      }
    }

    /** Second half of `transmit`: the socket takes some bytes, would block, or fails. A datagram
        goes as a whole or counts as a failure. */
    method Transmit(reply: SendReply) returns (fine: bool)
      requires Valid() && Possible(View(), DoTransmit(reply))
      modifies this`outgoing, this`offset, this`sent
      ensures Valid() && View() == After(old(View()), DoTransmit(reply))
      ensures fine == Fine(old(View()), reply)
      ensures fine <==> reply.WouldBlock? || (reply.Took? && reply.count > 0 && (tcp || reply.count == |old(outgoing)|))
    {
      AfterKeeps(View(), DoTransmit(reply));
      ghost var w := View();
      hide WireOk, Queue.Contents, Queue.Valid, AfterReceive, AfterRecv, SendResult;
      fine := !reply.Broken?;
      if reply.Took? {
        hide Possible;
        if reply.count == 0 || (!tcp && reply.count != |outgoing|) { return false; }
        sent, offset := sent + outgoing[offset..][..reply.count], offset + reply.count;
        if offset == |outgoing| { outgoing, offset := [], 0; }
        assert View() == AfterTransmit(w, reply);
      }
    }

    /** `reset_connection`, outside the lock: close the socket, forget the packet under way. */
    method CloseSocket()
      requires Valid() && Possible(View(), DoClose)
      modifies this`open, this`dropping, this`outgoing, this`offset
      ensures Valid() && View() == After(old(View()), DoClose)
      ensures !open && outgoing == [] && tx.Contents() == old(tx.Contents()) && rx.Contents() == old(rx.Contents())
    {
      AfterKeeps(View(), DoClose);
      hide WireOk, Queue.Contents;
      open, dropping, outgoing, offset := false, true, [], 0;
    }

    /** `reset_connection`, under the lock: the transmit queue is emptied and the status goes down;
        received chunks stay. The finished connection is filed away. */
    method ResetQueue()
      requires Valid() && Possible(View(), DoReset)
      modifies this`status, this`pendingError, this`dropping, this`sent, this`accepted, this`links, tx`head, tx`count
      ensures Valid() && View() == After(old(View()), DoReset)
      ensures status == Pending && pendingError == Some(IoError) && tx.Contents() == [] && rx.Contents() == old(rx.Contents())
    {
      AfterKeeps(View(), DoReset);
      ghost var w := View();
      assert After(w, DoReset) == AfterReset(w);
      hide WireOk, Queue.Contents, Possible, After;
      tx.Clear();
      links, status, pendingError, dropping, sent, accepted :=
        links + [Link(sent, accepted)], Pending, Some(IoError), false, [], [];
      assert View() == AfterReset(w);
    }

    /** Start of a receive: a stream looks for room before it takes anything. */
    method LookForRoom()
      requires Valid() && Possible(View(), DoLook)
      modifies this`receiving
      ensures Valid() && View() == After(old(View()), DoLook)
      ensures receiving == if tcp && |rx.Contents()| == QUEUE_CAPACITY then Nothing else RoomSeen
    {
      AfterKeeps(View(), DoLook);
      hide WireOk;
      if tcp && rx.count == QUEUE_CAPACITY { return; }
      receiving := RoomSeen;
    }

    /** The `recv` call, outside the lock. A closed stream or an error ends the connection; an
        oversized datagram is dropped and reported. */
    method Recv(reply: ReceiveReply) returns (fine: bool)
      requires Valid() && Possible(View(), DoRecv(reply))
      modifies this`receiving, this`taken, this`pendingError
      ensures Valid() && View() == After(old(View()), DoRecv(reply)) && fine == !reply.Closed?
      ensures reply.Got? && |reply.chunk| <= MAX_BYTES ==> receiving == Chunk(reply.chunk) && pendingError == old(pendingError)
      ensures reply.Got? && |reply.chunk| > MAX_BYTES ==> receiving == Nothing && pendingError == Some(Truncated)
      ensures !reply.Got? ==> receiving == Nothing && pendingError == old(pendingError)
    {
      hide SendLedger, ReceiveLedger, AllPrefixes, Flatten, Rest, WireOk, Queue.Contents;
      AfterKeeps(View(), DoRecv(reply));
      ghost var w := View();
      assert After(w, DoRecv(reply)) == AfterRecv(w, reply);
      hide Possible, After;
      fine := !reply.Closed?;
      if reply.Got? && |reply.chunk| <= MAX_BYTES {
        receiving, taken := Chunk(reply.chunk), taken + reply.chunk;
      } else {
        receiving := Nothing;
        if reply.Got? { pendingError := Some(Truncated); }
      }
    }

    /** End of a receive, under the lock again. Only a datagram can find the queue full by now. */
    method Store() returns (stored: bool)
      requires Valid() && Possible(View(), DoStore)
      modifies this`receiving, this`pendingError, rx`count, rx.slots
      ensures Valid() && View() == After(old(View()), DoStore)
      ensures stored == (|old(View()).waiting| < QUEUE_CAPACITY) && (tcp ==> stored)
      ensures rx.Contents() == old(rx.Contents()) + (if stored then [old(receiving).packet] else [])
      ensures receiving == Nothing && pendingError == if stored then old(pendingError) else Some(QueueFull)
    {
      hide SendLedger, ReceiveLedger, AllPrefixes, Flatten, Queue.Contents;
      if tcp { StreamHasRoom(receiving, rx.Contents(), taken, returned); }
      AfterKeeps(View(), DoStore);
      hide WireOk;
      stored := rx.Push(receiving.packet);
      if !stored { pendingError := Some(QueueFull); }
      receiving := Nothing;
    }
  }

  /** The steps taken in place, one after the other, end in exactly the state that `Run` computes,
      and hand to the model exactly its bytes. */
  method RunEndpoint(tcp: bool, steps: seq<Step>) returns (handed: seq<byte>, status: Status)
    ensures handed == Run(tcp, steps).returned && status == Run(tcp, steps).status
    ensures tcp ==> handed <= Flatten(Arrivals(tcp, steps))
    ensures !tcp ==> handed == Given(steps)
  {
    hide WireOk, Queue.Contents, After, Possible, Arrivals, Given, Flatten;
    var e := new Endpoint(tcp);
    handed := [];
    for i := 0 to |steps|
      invariant fresh(e) && fresh(e.tx) && fresh(e.rx) && fresh(e.tx.slots) && fresh(e.rx.slots)
      invariant e.Valid() && e.View() == Run(tcp, steps[..i]) && handed == e.returned
    {
      assert steps[..i + 1][..i] == steps[..i];
      var possible := CanTake(e, steps[i]);
      if possible {
        var data := Perform(e, steps[i]);
        handed := handed + data;
      }
    }
    assert steps[..|steps|] == steps;
    if tcp { HandedFirst(steps); } else { DatagramsArrive(steps); }
    status := e.status;
  }

  lemma HandedFirst(steps: seq<Step>)
    ensures Run(true, steps).returned <= Flatten(Arrivals(true, steps))
  {
    hide Run, Arrivals, Flatten;
    StreamIsPreserved(steps);
    var w := Run(true, steps);
    assert w.returned + Flatten(w.waiting) + UnderWay(w) == w.returned + (Flatten(w.waiting) + UnderWay(w));
  }

  method CanTake(e: Endpoint, step: Step) returns (possible: bool)
    requires e.Valid()
    ensures possible == Possible(e.View(), step)
  {
    hide Queue.Contents, SendLedger, ReceiveLedger, AllPrefixes;
    match step
    case DoSend(_, _) => possible := true;
    case DoReceive(_, _) => possible := true;
    case DoComeUp => possible := e.status != Up;
    case DoStayDown(why) => possible := e.status != Up && why != Up;
    case DoDequeue => possible := e.open && !e.dropping && e.status == Up;
    case DoTransmit(reply) =>
      possible := e.open && e.status == Up && e.outgoing != [] && (reply.Took? ==> reply.count <= |e.outgoing| - e.offset);
    case DoClose => possible := e.open && e.status == Up && e.receiving == Nothing;
    case DoReset => possible := e.dropping;
    case DoLook => possible := e.receiving == Nothing;
    case DoRecv(reply) => possible := e.receiving == RoomSeen && (reply.Got? && e.tcp ==> 0 < |reply.chunk| <= MAX_BYTES);
    case DoStore => possible := e.receiving.Chunk?;
  }

  method Perform(e: Endpoint, step: Step) returns (data: Packet)
    requires e.Valid() && Possible(e.View(), step)
    modifies e, e.tx, e.tx.slots, e.rx, e.rx.slots
    ensures e.Valid() && e.View() == After(old(e.View()), step) && e.returned == old(e.returned) + data
  {
    hide WireOk, After, Possible, Queue.Contents;
    data := [];
    match step
    case DoSend(packet, busy) => var s := e.Send(packet, busy);
    case DoReceive(capacity, busy) => var s, v; s, data, v := e.Receive(capacity, busy);
    case DoComeUp => e.ComeUp();
    case DoStayDown(why) => e.StayDown(why);
    case DoDequeue => e.Dequeue();
    case DoTransmit(reply) => var fine := e.Transmit(reply);
    case DoClose => e.CloseSocket();
    case DoReset => e.ResetQueue();
    case DoLook => e.LookForRoom();
    case DoRecv(reply) => var fine := e.Recv(reply);
    case DoStore => var stored := e.Store();
  }
}
