/** Channel ownership in the two-channel CAN driver.

    Three kinds of threads interleave: the one thread inside `lifecycle_lock` that configures
    or releases a channel, the I/O worker, and the model thread. `sdk_lock` is held across
    steps; sections under `queue_lock` are single steps. A channel is owned through a token;
    tokens are never used twice (the model does not wrap the counter). Frames carry the token
    they were queued or fetched under, so that the theorems can speak about it. */
module CanDriver {
  import opened Common

  const QUEUE_CAPACITY: nat := 256
  const WORK_BATCH: nat := 32

  datatype Frame = Frame(owner: nat, data: int)

  datatype Channel = Channel(token: nat, tx: seq<Frame>, rx: seq<Frame>)

  const FREE := Channel(0, [], [])

  /** The thread inside the lifecycle lock. */
  datatype Life =
    | Outside
    | SetupWaits(i: nat, first: bool) | SetupConnects(i: nat, first: bool) | SetupStarts(i: nat, first: bool) | SetupInstalls(i: nat)
    | ReleaseWaits(token: nat) | ReleaseClears(token: nat) | ReleaseJoins

  datatype Worker =
    | NotStarted | Exited | Top | AtChannel(i: nat)
    | WaitsForSdk(i: nat, token: nat, batch: seq<Frame>) | Rechecks(i: nat, token: nat, batch: seq<Frame>)
    | Sends(i: nat, token: nat, batch: seq<Frame>) | Fetched(i: nat, token: nat, batch: seq<Frame>) | Stores(i: nat, token: nat, batch: seq<Frame>)

  /** A frame entering or leaving a queue, with the owner of the channel and the state of the
      device connection at that moment. */
  datatype Crossing = Crossing(frame: Frame, owner: nat, connected: bool)

  datatype State = State(
    channels: seq<Channel>, nextToken: nat, life: Life, worker: Worker,
    connected: bool, running: bool, stop: bool,
    accepted: seq<Crossing>, toSdk: seq<Crossing>, stored: seq<Crossing>, toModel: seq<Crossing>)

  datatype LifeAct = BeginSetup(i: nat, sameDevice: bool) | TakeSdk | Connect(ok: bool) | Start(ok: bool) | Install | BeginRelease(token: nat) | ClearOwner | Join
  datatype WorkerAct = Look | Grab | Acquire | Recheck | SendOne | Fetch(frames: seq<int>, ok: bool) | LetGo | Store
  datatype ModelAct = Queue(i: nat, data: int) | Read(i: nat)
  datatype Step = L(life: LifeAct) | W(worker: WorkerAct) | M(model: ModelAct)

  const START := State([FREE, FREE], 0, Outside, NotStarted, false, false, false, [], [], [], [])

  predicate LifeHasSdk(s: State) { s.life.SetupConnects? || s.life.SetupStarts? || s.life.SetupInstalls? || s.life.ReleaseClears? }
  predicate WorkerHasSdk(s: State) { s.worker.Rechecks? || s.worker.Sends? || s.worker.Fetched? }
  predicate SdkFree(s: State) { !LifeHasSdk(s) && !WorkerHasSdk(s) }

  function Tagged(frames: seq<int>, owner: nat): (r: seq<Frame>)
    ensures |r| == |frames| && forall i :: 0 <= i < |r| ==> r[i] == Frame(owner, frames[i])
  {
    seq(|frames|, i requires 0 <= i < |frames| => Frame(owner, frames[i]))
  }

  function Crossings(frames: seq<Frame>, owner: nat, connected: bool): (r: seq<Crossing>)
    ensures |r| == |frames|
  {
    if frames == [] then [] else Crossings(frames[..|frames|-1], owner, connected) + [Crossing(frames[|frames|-1], owner, connected)]
  }

  /** The frames of one owner in a log, in order. */
  function FramesOf(log: seq<Crossing>, owner: nat): seq<Frame> {
    if log == [] then []
    else FramesOf(log[..|log|-1], owner) + (if log[|log|-1].frame.owner == owner then [log[|log|-1].frame] else [])
  }

  // ----- configure and release

  function LifeStep(s: State, act: LifeAct): (t: State)
    requires |s.channels| == 2
    ensures |t.channels| == 2
  {
    match act
    case BeginSetup(i, sameDevice) =>
      if !s.life.Outside? || i >= 2 || s.channels[i].token != 0 || (s.running && !sameDevice) then s
      else s.(life := SetupWaits(i, !s.running))
    case TakeSdk =>
      if s.life.SetupWaits? && SdkFree(s) then s.(life := SetupConnects(s.life.i, s.life.first))
      else if s.life.ReleaseWaits? && SdkFree(s) then s.(life := ReleaseClears(s.life.token))
      else s
    case Connect(ok) =>
      if !s.life.SetupConnects? then s
      else if !ok then s.(life := Outside)
      else if s.life.first then s.(life := SetupStarts(s.life.i, true), connected := true)
      else s.(life := SetupStarts(s.life.i, false))
    case Start(ok) =>
      if !s.life.SetupStarts? then s
      else if !s.life.first then s.(life := SetupInstalls(s.life.i))
      else if ok then s.(life := SetupInstalls(s.life.i), stop := false, worker := Top)
      else s.(life := Outside, stop := false, connected := false)
    case Install =>
      if !s.life.SetupInstalls? || s.life.i >= 2 then s
      else s.(
        channels := s.channels[s.life.i := FREE.(token := s.nextToken + 1)],
        nextToken := s.nextToken + 1, running := true, life := Outside)
    case BeginRelease(token) => if !s.life.Outside? || token == 0 then s else s.(life := ReleaseWaits(token))
    case ClearOwner =>
      if !s.life.ReleaseClears? then s
      else
        var found := s.channels[0].token == s.life.token || s.channels[1].token == s.life.token;
        var cleared := if s.channels[0].token == s.life.token then [FREE, s.channels[1]]
                       else if s.channels[1].token == s.life.token then [s.channels[0], FREE] else s.channels;
        if found && cleared[0].token == 0 && cleared[1].token == 0
        then s.(channels := cleared, stop := true, life := ReleaseJoins)
        else s.(channels := cleared, life := Outside)
    case Join =>
      if s.life.ReleaseJoins? && s.worker.Exited?
      then s.(life := Outside, worker := NotStarted, connected := false, running := false) else s
  }

  predicate LifeCanMove(s: State) {
    match s.life
    case Outside => true
    case SetupWaits(_, _) => SdkFree(s)
    case ReleaseWaits(_) => SdkFree(s)
    case ReleaseJoins => s.worker.Exited?
    case _ => true
  }

  // ----- the I/O worker

  function WorkerStep(s: State, act: WorkerAct): (t: State)
    requires |s.channels| == 2
    ensures |t.channels| == 2
  {
    match act
    case Look => if !s.worker.Top? then s else s.(worker := if s.stop then Exited else AtChannel(0))
    case Grab =>
      if !s.worker.AtChannel? then s
      else if s.worker.i >= 2 then s.(worker := Top)
      else
        var i, c := s.worker.i, s.channels[s.worker.i];
        if c.token == 0 then s.(worker := AtChannel(i + 1))
        else
          var n := Min(WORK_BATCH, |c.tx|);
          s.(worker := WaitsForSdk(i, c.token, c.tx[..n]), channels := s.channels[i := c.(tx := c.tx[n..])])
    case Acquire => if s.worker.WaitsForSdk? && SdkFree(s) then s.(worker := Rechecks(s.worker.i, s.worker.token, s.worker.batch)) else s
    case Recheck =>
      if !s.worker.Rechecks? || s.worker.i >= 2 then s
      else if s.channels[s.worker.i].token != s.worker.token || s.stop then s.(worker := AtChannel(s.worker.i + 1))
      else s.(worker := Sends(s.worker.i, s.worker.token, s.worker.batch))
    case SendOne =>
      if !s.worker.Sends? || s.worker.i >= 2 || s.worker.batch == [] then s
      else
        s.(worker := Sends(s.worker.i, s.worker.token, s.worker.batch[1..]),
          toSdk := s.toSdk + [Crossing(s.worker.batch[0], s.channels[s.worker.i].token, s.connected)])
    case Fetch(frames, ok) =>
      if !s.worker.Sends? || s.worker.batch != [] then s
      else s.(worker := Fetched(s.worker.i, s.worker.token, if ok && |frames| <= WORK_BATCH then Tagged(frames, s.worker.token) else []))
    case LetGo => if !s.worker.Fetched? then s else s.(worker := Stores(s.worker.i, s.worker.token, s.worker.batch))
    case Store =>
      if !s.worker.Stores? || s.worker.i >= 2 then s
      else
        var i, c := s.worker.i, s.channels[s.worker.i];
        if c.token != s.worker.token then s.(worker := AtChannel(i + 1))
        else
          var n := Min(|s.worker.batch|, if |c.rx| <= QUEUE_CAPACITY then QUEUE_CAPACITY - |c.rx| else 0);
          s.(worker := AtChannel(i + 1), channels := s.channels[i := c.(rx := c.rx + s.worker.batch[..n])],
            stored := s.stored + Crossings(s.worker.batch[..n], c.token, s.connected))
  }

  predicate WorkerCanMove(s: State) {
    match s.worker
    case NotStarted => false
    case Exited => false
    case WaitsForSdk(_, _, _) => SdkFree(s)
    case _ => true
  }

  // ----- the model thread

  function ModelStep(s: State, act: ModelAct): (t: State)
    requires |s.channels| == 2
    ensures |t.channels| == 2
  {
    match act
    case Queue(i, data) =>
      if i >= 2 || s.channels[i].token == 0 || |s.channels[i].tx| >= QUEUE_CAPACITY then s
      else
        var c := s.channels[i];
        var f := Frame(c.token, data);
        s.(channels := s.channels[i := c.(tx := c.tx + [f])], accepted := s.accepted + [Crossing(f, c.token, s.connected)])
    case Read(i) =>
      if i >= 2 || s.channels[i].token == 0 || s.channels[i].rx == [] then s
      else
        var c := s.channels[i];
        s.(channels := s.channels[i := c.(rx := c.rx[1..])], toModel := s.toModel + [Crossing(c.rx[0], c.token, s.connected)])
  }

  function Next(s: State, step: Step): (t: State)
    requires |s.channels| == 2
    ensures |t.channels| == 2
  {
    match step
    case L(act) => LifeStep(s, act)
    case W(act) => WorkerStep(s, act)
    case M(act) => ModelStep(s, act)
  }

  function Run(steps: seq<Step>): (s: State)
    ensures |s.channels| == 2
  {
    if steps == [] then START else Next(Run(steps[..|steps|-1]), steps[|steps|-1])
  }

  // ----- the invariant

  ghost predicate AllOwned(frames: seq<Frame>, owner: nat) { forall f :: f in frames ==> f.owner == owner }

  /** Every frame crossed while the token it carries owned its channel and the device was connected. */
  ghost predicate Proper(log: seq<Crossing>, nextToken: nat) {
    forall x :: x in log ==> 0 < x.frame.owner <= nextToken && x.owner == x.frame.owner && x.connected
  }

  /** What came out for an owner, then what is between, is what went in. */
  ghost predicate Tied(out: seq<Crossing>, into: seq<Crossing>, owner: nat, between: seq<Frame>) {
    FramesOf(out, owner) + between == FramesOf(into, owner)
  }

  /** For every owner there ever was, what came out is a prefix of what went in. */
  ghost predicate Follows(out: seq<Crossing>, into: seq<Crossing>) {
    forall owner: nat :: FramesOf(out, owner) <= FramesOf(into, owner)
  }

  /** The batch the worker took from channel `i` for its present owner and has not handed over. */
  function InFlight(w: Worker, i: nat, token: nat): seq<Frame> {
    match w
    case WaitsForSdk(j, t, batch) => if i == j && t == token then batch else []
    case Rechecks(j, t, batch) => if i == j && t == token then batch else []
    case Sends(j, t, batch) => if i == j && t == token then batch else []
    case _ => []
  }

  ghost predicate QueuesOk(c: Channel) {
    && AllOwned(c.tx, c.token) && AllOwned(c.rx, c.token)
    && (c.token == 0 ==> c == FREE)
    && |c.tx| <= QUEUE_CAPACITY && |c.rx| <= QUEUE_CAPACITY
  }

  /** Queues hold frames of the present owner only; all it had accepted is sent, in flight or
      queued, and all that was stored for it is read or queued, each in order. */
  ghost predicate ChannelOk(s: State, i: nat)
    requires i < |s.channels|
  {
    var c := s.channels[i];
    && c.token <= s.nextToken && QueuesOk(c)
    && Tied(s.toSdk, s.accepted, c.token, InFlight(s.worker, i, c.token) + c.tx)
    && Tied(s.toModel, s.stored, c.token, c.rx)
  }

  ghost predicate WorkerOk(s: State)
    requires |s.channels| == 2
  {
    match s.worker
    case AtChannel(i) => i <= 2
    case WaitsForSdk(i, token, batch) => i < 2 && 0 < token <= s.nextToken && AllOwned(batch, token)
    case Rechecks(i, token, batch) => i < 2 && 0 < token <= s.nextToken && AllOwned(batch, token)
    case Sends(i, token, batch) => i < 2 && token != 0 && AllOwned(batch, token) && s.channels[i].token == token && s.connected && !s.stop
    case Fetched(i, token, batch) => i < 2 && token != 0 && AllOwned(batch, token) && s.channels[i].token == token && s.connected && !s.stop
    case Stores(i, token, batch) => i < 2 && 0 < token <= s.nextToken && AllOwned(batch, token)
    case _ => true
  }

  ghost predicate LifeOk(s: State)
    requires |s.channels| == 2
  {
    && !(LifeHasSdk(s) && WorkerHasSdk(s))
    && (s.channels[0].token == s.channels[1].token ==> s.channels[0].token == 0)
    && (s.channels[0].token != 0 || s.channels[1].token != 0 ==> s.running && !s.life.ReleaseJoins?)
    && (s.running && !s.life.ReleaseJoins? ==> s.connected && !s.stop && !s.worker.NotStarted? && !s.worker.Exited?)
    && (s.life.ReleaseJoins? ==> s.running && s.connected && s.stop && !s.worker.NotStarted?)
    && (!s.running && !s.life.SetupStarts? && !s.life.SetupInstalls? ==> !s.connected)
    && (!s.running && !s.life.SetupInstalls? ==> s.worker.NotStarted?)
    && (s.life.SetupWaits? || s.life.SetupConnects? || s.life.SetupStarts? ==>
      s.life.i < 2 && s.channels[s.life.i].token == 0 && s.life.first == !s.running)
    && (s.life.SetupStarts? ==> s.connected)
    && (s.life.SetupInstalls? ==>
      s.life.i < 2 && s.channels[s.life.i].token == 0 && s.connected && !s.stop && !s.worker.NotStarted? && !s.worker.Exited?)
    && (s.life.ReleaseWaits? || s.life.ReleaseClears? ==> s.life.token != 0)
  }

  ghost predicate LogsOk(s: State) {
    && Proper(s.accepted, s.nextToken) && Proper(s.toSdk, s.nextToken)
    && Proper(s.stored, s.nextToken) && Proper(s.toModel, s.nextToken)
    && Follows(s.toSdk, s.accepted) && Follows(s.toModel, s.stored)
  }

  ghost predicate Inv(s: State) {
    |s.channels| == 2 && ChannelOk(s, 0) && ChannelOk(s, 1) && WorkerOk(s) && LifeOk(s) && LogsOk(s)
  }

  // ----- logs and queues

  lemma {:induction false} NoneOf(log: seq<Crossing>, nextToken: nat, owner: nat)
    requires Proper(log, nextToken) && (owner == 0 || owner > nextToken)
    ensures FramesOf(log, owner) == []
  {
    if log != [] { NoneOf(log[..|log|-1], nextToken, owner); }
  }

  lemma Unused(out: seq<Crossing>, into: seq<Crossing>, nextToken: nat, owner: nat)
    requires Proper(out, nextToken) && Proper(into, nextToken) && (owner == 0 || owner > nextToken)
    ensures Tied(out, into, owner, [])
  {
    NoneOf(out, nextToken, owner);
    NoneOf(into, nextToken, owner);
  }

  lemma {:induction false} FramesOfMore(log: seq<Crossing>, frames: seq<Frame>, who: nat, connected: bool, owner: nat)
    requires AllOwned(frames, who)
    ensures FramesOf(log + Crossings(frames, who, connected), owner) == FramesOf(log, owner) + if owner == who then frames else []
  {
    if frames == [] {
      assert log + Crossings(frames, who, connected) == log;
    } else {
      var most, last := frames[..|frames|-1], frames[|frames|-1];
      FramesOfMore(log, most, who, connected, owner);
      var longer := log + Crossings(frames, who, connected);
      assert longer[..|longer|-1] == log + Crossings(most, who, connected);
      assert last in frames && longer[|longer|-1] == Crossing(last, who, connected);
      assert frames == most + [last];
    }
  }

  lemma {:induction false} CrossingsProper(frames: seq<Frame>, owner: nat, nextToken: nat)
    requires AllOwned(frames, owner) && 0 < owner <= nextToken
    ensures Proper(Crossings(frames, owner, true), nextToken)
  {
    if frames != [] {
      assert frames[|frames|-1] in frames;
      CrossingsProper(frames[..|frames|-1], owner, nextToken);
    }
  }

  /** Frames of `who` go in: its books stay tied with them behind, all other books stay as they are. */
  lemma GoIn(out: seq<Crossing>, into: seq<Crossing>, between: seq<Frame>, frames: seq<Frame>, who: nat, nextToken: nat)
    requires Proper(into, nextToken) && Follows(out, into) && Tied(out, into, who, between)
    requires AllOwned(frames, who) && 0 < who <= nextToken
    ensures Proper(into + Crossings(frames, who, true), nextToken) && Follows(out, into + Crossings(frames, who, true))
    ensures Tied(out, into + Crossings(frames, who, true), who, between + frames)
    ensures forall other: nat, b :: other != who && Tied(out, into, other, b) ==> Tied(out, into + Crossings(frames, who, true), other, b)
  {
    CrossingsProper(frames, who, nextToken);
    hide FramesOf, Crossings, AllOwned, Follows, Tied;
    var more := Crossings(frames, who, true);
    assert Proper(into + more, nextToken);
    hide Proper;
    forall owner: nat ensures FramesOf(into + more, owner) == FramesOf(into, owner) + if owner == who then frames else [] {
      FramesOfMore(into, frames, who, true, owner);
    }
    TiedIn(out, into, into + more, between, frames, who);
  }

  lemma TiedIn(out: seq<Crossing>, into: seq<Crossing>, longer: seq<Crossing>, between: seq<Frame>, frames: seq<Frame>, who: nat)
    requires Follows(out, into) && Tied(out, into, who, between)
    requires forall owner: nat :: FramesOf(longer, owner) == FramesOf(into, owner) + if owner == who then frames else []
    ensures Follows(out, longer) && Tied(out, longer, who, between + frames)
    ensures forall other: nat, b :: other != who && Tied(out, into, other, b) ==> Tied(out, longer, other, b)
  {
    hide FramesOf;
    assert FramesOf(out, who) + between + frames == FramesOf(out, who) + (between + frames);
  }

  /** The first frame between comes out: books stay tied, and nobody else's change. */
  lemma ComeOut(out: seq<Crossing>, into: seq<Crossing>, between: seq<Frame>, who: nat, nextToken: nat)
    requires Proper(out, nextToken) && Follows(out, into) && Tied(out, into, who, between)
    requires between != [] && between[0].owner == who && 0 < who <= nextToken
    ensures Proper(out + [Crossing(between[0], who, true)], nextToken) && Follows(out + [Crossing(between[0], who, true)], into)
    ensures Tied(out + [Crossing(between[0], who, true)], into, who, between[1..])
    ensures forall other: nat, b :: other != who && Tied(out, into, other, b) ==> Tied(out + [Crossing(between[0], who, true)], into, other, b)
  {
    var more := out + [Crossing(between[0], who, true)];
    assert more[..|more|-1] == out;
    assert forall owner: nat :: FramesOf(more, owner) == FramesOf(out, owner) + if owner == who then [between[0]] else [];
    assert FramesOf(out, who) + [between[0]] + between[1..] == FramesOf(out, who) + between;
  }

  lemma ProperLater(log: seq<Crossing>, nextToken: nat)
    requires Proper(log, nextToken)
    ensures Proper(log, nextToken + 1)
  {
  }

  lemma One(f: Frame, owner: nat)
    ensures Crossings([f], owner, true) == [Crossing(f, owner, true)]
  {
    assert Crossings([], owner, true) == [];
  }

  lemma EmptyQueues(token: nat)
    ensures QueuesOk(FREE.(token := token))
  {
  }

  // ----- every step keeps the invariant

  lemma InstallKeeps(s: State)
    requires Inv(s)
    ensures Inv(LifeStep(s, Install))
  {
    hide QueuesOk, AllOwned, Proper, Tied, Follows;
    if s.life.SetupInstalls? {
      var token := s.nextToken + 1;
      Unused(s.toSdk, s.accepted, s.nextToken, token);
      Unused(s.toModel, s.stored, s.nextToken, token);
      ProperLater(s.accepted, s.nextToken);
      ProperLater(s.toSdk, s.nextToken);
      ProperLater(s.stored, s.nextToken);
      ProperLater(s.toModel, s.nextToken);
      EmptyQueues(token);
      assert InFlight(s.worker, s.life.i, token) + [] == [];
    }
  }

  lemma ClearOwnerKeeps(s: State)
    requires Inv(s)
    ensures Inv(LifeStep(s, ClearOwner))
  {
    hide QueuesOk, AllOwned, Proper, Tied, Follows;
    Unused(s.toSdk, s.accepted, s.nextToken, 0);
    Unused(s.toModel, s.stored, s.nextToken, 0);
    EmptyQueues(0);
    assert InFlight(s.worker, 0, 0) + [] == [];
    assert InFlight(s.worker, 1, 0) + [] == [];
  }

  /** The lifecycle steps that leave the channels alone. */
  lemma LifeMoves(s: State, act: LifeAct)
    requires Inv(s) && !act.ClearOwner? && !act.Install?
    ensures Inv(LifeStep(s, act))
  {
    hide QueuesOk, AllOwned, Proper, Tied, Follows;
    match act
    case BeginSetup(i, sameDevice) =>
    case TakeSdk =>
    case Connect(ok) =>
    case Start(ok) =>
    case BeginRelease(token) =>
    case Join =>
  }

  /** The worker steps that leave the channels and the logs alone. */
  lemma WorkerMoves(s: State, act: WorkerAct)
    requires Inv(s) && (act.Look? || act.Acquire? || act.Recheck? || act.LetGo?)
    ensures Inv(WorkerStep(s, act))
  {
    hide QueuesOk, AllOwned, Proper, Tied, Follows;
    match act
    case Look =>
    case Acquire =>
    case Recheck =>
    case LetGo =>
  }

  lemma Taken(c: Channel, n: nat)
    requires QueuesOk(c) && n <= |c.tx| && c.token != 0
    ensures QueuesOk(c.(tx := c.tx[n..])) && AllOwned(c.tx[..n], c.token) && c.tx[..n] + c.tx[n..] == [] + c.tx
  {
  }

  lemma GrabKeeps(s: State)
    requires Inv(s)
    ensures Inv(WorkerStep(s, Grab))
  {
    hide QueuesOk, AllOwned, Proper, Tied, Follows;
    if s.worker.AtChannel? && s.worker.i < 2 && s.channels[s.worker.i].token != 0 {
      var c := s.channels[s.worker.i];
      Taken(c, Min(WORK_BATCH, |c.tx|));
    }
  }

  lemma SendKeeps(s: State)
    requires Inv(s)
    ensures Inv(WorkerStep(s, SendOne))
  {
    hide QueuesOk, Proper, Tied, Follows;
    if s.worker.Sends? && s.worker.batch != [] {
      var i, batch := s.worker.i, s.worker.batch;
      var c := s.channels[i];
      assert batch[0] in batch && (batch + c.tx)[0] == batch[0] && (batch + c.tx)[1..] == batch[1..] + c.tx;
      ComeOut(s.toSdk, s.accepted, batch + c.tx, c.token, s.nextToken);
    }
  }

  lemma FetchKeeps(s: State, frames: seq<int>, ok: bool)
    requires Inv(s)
    ensures Inv(WorkerStep(s, Fetch(frames, ok)))
  {
    hide QueuesOk, Proper, Tied, Follows;
  }

  lemma Held(c: Channel, frames: seq<Frame>)
    requires QueuesOk(c) && AllOwned(frames, c.token) && c.token != 0 && |c.rx| + |frames| <= QUEUE_CAPACITY
    ensures QueuesOk(c.(rx := c.rx + frames))
  {
  }

  lemma StoreKeeps(s: State)
    requires Inv(s)
    ensures Inv(WorkerStep(s, Store))
  {
    hide QueuesOk, Proper, Tied, Follows;
    if s.worker.Stores? && s.channels[s.worker.i].token == s.worker.token {
      var c := s.channels[s.worker.i];
      var n := Min(|s.worker.batch|, if |c.rx| <= QUEUE_CAPACITY then QUEUE_CAPACITY - |c.rx| else 0);
      var kept := s.worker.batch[..n];
      assert AllOwned(kept, c.token);
      Capacity(c);
      Held(c, kept);
      GoIn(s.toModel, s.stored, c.rx, kept, c.token, s.nextToken);
    }
  }

  lemma Capacity(c: Channel)
    requires QueuesOk(c)
    ensures |c.tx| <= QUEUE_CAPACITY && |c.rx| <= QUEUE_CAPACITY
    ensures c.rx != [] ==> c.rx[0].owner == c.token && (c.token != 0 ==> QueuesOk(c.(rx := c.rx[1..])))
  {
  }

  lemma QueueKeeps(s: State, i: nat, data: int)
    requires Inv(s)
    ensures Inv(ModelStep(s, Queue(i, data)))
  {
    hide QueuesOk, Proper, Tied, Follows;
    if i < 2 && s.channels[i].token != 0 && |s.channels[i].tx| < QUEUE_CAPACITY {
      var c := s.channels[i];
      var f := Frame(c.token, data);
      var between := InFlight(s.worker, i, c.token) + c.tx;
      assert between + [f] == InFlight(s.worker, i, c.token) + (c.tx + [f]);
      One(f, c.token);
      GoIn(s.toSdk, s.accepted, between, [f], c.token, s.nextToken);
      Queued(c, f);
    }
  }

  lemma Queued(c: Channel, f: Frame)
    requires QueuesOk(c) && f.owner == c.token != 0 && |c.tx| < QUEUE_CAPACITY
    ensures QueuesOk(c.(tx := c.tx + [f]))
  {
  }

  lemma ReadKeeps(s: State, i: nat)
    requires Inv(s)
    ensures Inv(ModelStep(s, Read(i)))
  {
    hide QueuesOk, Proper, Tied, Follows;
    if i < 2 && s.channels[i].token != 0 && s.channels[i].rx != [] {
      var c := s.channels[i];
      Capacity(c);
      ComeOut(s.toModel, s.stored, c.rx, c.token, s.nextToken);
    }
  }

  lemma NextKeeps(s: State, step: Step)
    requires Inv(s)
    ensures Inv(Next(s, step))
  {
    hide Inv, LifeStep, WorkerStep, ModelStep;
    match step
    case L(act) =>
      if act.ClearOwner? { ClearOwnerKeeps(s); } else if act.Install? { InstallKeeps(s); } else { LifeMoves(s, act); }
    case M(act) =>
      match act {
        case Queue(i, data) => QueueKeeps(s, i, data);
        case Read(i) => ReadKeeps(s, i);
      }
    case W(act) =>
      match act {
        case Grab => GrabKeeps(s);
        case SendOne => SendKeeps(s);
        case Fetch(frames, ok) => FetchKeeps(s, frames, ok);
        case Store => StoreKeeps(s);
        case _ => WorkerMoves(s, act);
      }
  }

  lemma {:induction false} Reachable(steps: seq<Step>)
    ensures Inv(Run(steps))
  {
    hide Inv, Next;
    if steps == [] {
      StartOk();
    } else {
      Reachable(steps[..|steps|-1]);
      NextKeeps(Run(steps[..|steps|-1]), steps[|steps|-1]);
    }
  }

  lemma StartOk()
    ensures Inv(START)
  {
  }

  // ----- the theorems

  /** In every interleaving: a frame goes to the device only while the token it was queued under
      owns its channel and the device is connected, and to the model only while the token it was
      fetched under does; and for every owner there ever was, frames come out in the order they
      went in, none twice and none of another owner's. */
  lemma FramesStayWithTheirOwner(steps: seq<Step>)
    ensures forall x :: x in Run(steps).toSdk ==> x.frame.owner == x.owner != 0 && x.connected
    ensures forall x :: x in Run(steps).toModel ==> x.frame.owner == x.owner != 0 && x.connected
    ensures forall token: nat ::
      && FramesOf(Run(steps).toSdk, token) <= FramesOf(Run(steps).accepted, token)
      && FramesOf(Run(steps).toModel, token) <= FramesOf(Run(steps).stored, token)
  {
    hide Run, ChannelOk, WorkerOk, LifeOk, FramesOf;
    Reachable(steps);
  }

  /** While a token owns its channel nothing of its frames is lost: what the device got, what the
      worker holds and what is queued are together exactly the frames accepted. */
  lemma {:induction false} NothingLostWhileOwned(steps: seq<Step>, i: nat)
    requires i < 2
    ensures
      var s := Run(steps);
      var c := s.channels[i];
      && FramesOf(s.toSdk, c.token) + InFlight(s.worker, i, c.token) + c.tx == FramesOf(s.accepted, c.token)
      && FramesOf(s.toModel, c.token) + c.rx == FramesOf(s.stored, c.token)
      && |c.tx| <= QUEUE_CAPACITY && |c.rx| <= QUEUE_CAPACITY
      && (c.token == 0 ==> c.tx == [] && c.rx == [])
  {
    hide Run, WorkerOk, LifeOk, FramesOf, Proper, Follows;
    Reachable(steps);
    var s := Run(steps);
    var c := s.channels[i];
    assert FramesOf(s.toSdk, c.token) + InFlight(s.worker, i, c.token) + c.tx
        == FramesOf(s.toSdk, c.token) + (InFlight(s.worker, i, c.token) + c.tx);
  }

  /** Two channels never share an owner, and a channel has one only while the worker serves a
      connected device. */
  lemma OwnersAreDistinct(steps: seq<Step>)
    ensures
      var s := Run(steps);
      && (s.channels[0].token != 0 ==> s.channels[0].token != s.channels[1].token)
      && (s.channels[0].token != 0 || s.channels[1].token != 0 ==>
        s.connected && !s.stop && !s.worker.NotStarted? && !s.worker.Exited?)
  {
    hide Run, ChannelOk, WorkerOk, LogsOk;
    Reachable(steps);
  }

  /** No deadlock over `sdk_lock` and the join: whenever the lifecycle thread is blocked, the worker
      can move, and whenever a live worker is blocked, the lifecycle thread can. A section under
      `queue_lock` takes no other lock and is part of one step. */
  lemma NoDeadlock(steps: seq<Step>)
    ensures
      var s := Run(steps);
      && (LifeCanMove(s) || WorkerCanMove(s))
      && (WorkerCanMove(s) || s.worker.NotStarted? || s.worker.Exited? || (LifeHasSdk(s) && LifeCanMove(s)))
  {
    hide Run, ChannelOk, LogsOk, AllOwned;
    Reachable(steps);
  }

  /** The one action the worker's program counter allows. */
  function Turn(w: Worker): WorkerAct {
    match w
    case AtChannel(_) => Grab
    case WaitsForSdk(_, _, _) => Acquire
    case Rechecks(_, _, _) => Recheck
    case Sends(_, _, batch) => if batch == [] then Fetch([], true) else SendOne
    case Fetched(_, _, _) => LetGo
    case Stores(_, _, _) => Store
    case _ => Look
  }

  function Turns(s: State, n: nat): (t: State)
    requires |s.channels| == 2
    ensures |t.channels| == 2
    decreases n
  {
    if n == 0 then s else Turns(WorkerStep(s, Turn(s.worker)), n - 1)
  }

  function Left(w: Worker): nat {
    match w
    case Top => 1
    case AtChannel(i) => if i <= 2 then 4 - i else 0
    case WaitsForSdk(i, _, _) => if i < 2 then 5 - i else 0
    case Rechecks(i, _, _) => if i < 2 then 4 - i else 0
    case Stores(i, _, _) => if i < 2 then 4 - i else 0
    case _ => 0
  }

  lemma NobodyOwns(s: State)
    requires Inv(s) && s.life.ReleaseJoins?
    ensures forall act :: ModelStep(s, act) == s
  {
    hide QueuesOk, AllOwned, Proper, Tied, Follows;
  }

  lemma StopTurn(s: State)
    requires Inv(s) && s.life.ReleaseJoins?
    ensures s.worker.Exited? || Left(s.worker) > 0
    ensures !s.worker.Exited? ==>
      var t := WorkerStep(s, Turn(s.worker));
      t.life.ReleaseJoins? && Left(t.worker) < Left(s.worker) && t.toSdk == s.toSdk
  {
    hide QueuesOk, AllOwned, Proper, Tied, Follows;
  }

  /** The join of the last release ends: the worker exits within five of its own steps, hands
      nothing more to the device, and nothing the model thread does at any of them has any effect. */
  lemma {:induction false} JoinEnds(s: State) returns (n: nat)
    requires Inv(s) && s.life.ReleaseJoins?
    ensures n <= Left(s.worker) <= 5
    ensures Turns(s, n).worker.Exited? && Turns(s, n).toSdk == s.toSdk
    ensures LifeStep(Turns(s, n), Join).life.Outside?
    ensures forall k: nat, act :: k <= n ==> ModelStep(Turns(s, k), act) == Turns(s, k)
    decreases Left(s.worker)
  {
    hide ChannelOk, WorkerOk, LifeOk, LogsOk, WorkerStep, ModelStep;
    StopTurn(s);
    NobodyOwns(s);
    if s.worker.Exited? {
      n := 0;
    } else {
      var t := WorkerStep(s, Turn(s.worker));
      NextKeeps(s, W(Turn(s.worker)));
      var m := JoinEnds(t);
      n := m + 1;
      forall k: nat, act | k <= n
        ensures ModelStep(Turns(s, k), act) == Turns(s, k)
      {
        if k > 0 { assert Turns(s, k) == Turns(t, k - 1); }
      }
    }
  }
}
