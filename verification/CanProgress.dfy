/** What the CAN driver achieves, and what its logs are made of.

    The logs of the state machine are tied to the steps: what the model thread queued and what the
    device yielded. From every state that a run can reach, the worker alone brings every accepted
    frame to the device, and a model that keeps reading gets every stored one. */
module CanProgress {
  import opened Common
  import opened CanDriver

  /** The frames of a log. */
  function Plain(log: seq<Crossing>): (r: seq<Frame>)
    ensures |r| == |log|
  {
    seq(|log|, i requires 0 <= i < |log| => log[i].frame)
  }

  lemma PlainJoins(a: seq<Crossing>, b: seq<Crossing>)
    ensures Plain(a + b) == Plain(a) + Plain(b)
  {}

  lemma {:induction false} PlainCrossings(frames: seq<Frame>, owner: nat, connected: bool)
    ensures Plain(Crossings(frames, owner, connected)) == frames
  {
    if frames != [] {
      PlainCrossings(frames[..|frames|-1], owner, connected);
    }
  }

  // ----- what went in

  /** The frame this step queues: the model wrote to an owned channel with room. */
  function OfferOf(s: State, step: Step): seq<Frame>
    requires |s.channels| == 2
  {
    if step.M? && step.model.Queue? && step.model.i < 2
      && s.channels[step.model.i].token != 0 && |s.channels[step.model.i].tx| < QUEUE_CAPACITY
    then [Frame(s.channels[step.model.i].token, step.model.data)] else []
  }

  function Offers(steps: seq<Step>): seq<Frame> {
    if steps == [] then []
    else Offers(steps[..|steps|-1]) + OfferOf(Run(steps[..|steps|-1]), steps[|steps|-1])
  }

  lemma OfferStep(s: State, step: Step)
    requires |s.channels| == 2
    ensures Plain(Next(s, step).accepted) == Plain(s.accepted) + OfferOf(s, step)
  {
    match step
    case L(act) => LifeKeepsLogs(s, act);
    case W(act) => WorkerKeepsLogs(s, act);
    case M(act) =>
  }

  lemma LifeKeepsLogs(s: State, act: LifeAct)
    requires |s.channels| == 2
    ensures var t := LifeStep(s, act);
      t.accepted == s.accepted && t.stored == s.stored && t.worker in {s.worker, Top, NotStarted}
  {
    match act
    case BeginSetup(i, sameDevice) =>
    case TakeSdk =>
    case Connect(ok) =>
    case Start(ok) =>
    case Install =>
    case BeginRelease(token) =>
    case ClearOwner =>
    case Join =>
  }

  lemma WorkerKeepsLogs(s: State, act: WorkerAct)
    requires |s.channels| == 2
    ensures var t := WorkerStep(s, act); t.accepted == s.accepted && (!act.Store? ==> t.stored == s.stored)
  {
    match act
    case Look =>
    case Grab =>
    case Acquire =>
    case Recheck =>
    case SendOne =>
    case Fetch(frames, ok) =>
    case LetGo =>
    case Store =>
  }

  /** In every interleaving the frames accepted are exactly those that the model queued, each under
      the token that owned the channel, in order. */
  lemma {:induction false} AcceptedIsOffers(steps: seq<Step>)
    ensures Plain(Run(steps).accepted) == Offers(steps)
  {
    if steps != [] {
      hide Next, OfferOf, Plain;
      AcceptedIsOffers(steps[..|steps|-1]);
      OfferStep(Run(steps[..|steps|-1]), steps[|steps|-1]);
    } else {
      assert Plain([]) == [];
    }
  }

  // ----- what the device yielded

  /** The worker asks the device for frames: it has sent its batch. */
  predicate Asks(s: State, step: Step) { step.W? && step.worker.Fetch? && s.worker.Sends? && s.worker.batch == [] }

  /** What the device yielded when it was asked last; nothing if that failed. */
  function Yielded(steps: seq<Step>): seq<int> {
    if steps == [] then []
    else
      var front, step := steps[..|steps|-1], steps[|steps|-1];
      if Asks(Run(front), step) then (if step.worker.ok && |step.worker.frames| <= WORK_BATCH then step.worker.frames else [])
      else Yielded(front)
  }

  /** The worker holds exactly what was yielded, under the token it asked for. */
  ghost predicate Holds(w: Worker, yielded: seq<int>) {
    (w.Fetched? || w.Stores?) ==> w.batch == Tagged(yielded, w.token)
  }

  lemma HoldStep(s: State, step: Step, yielded: seq<int>)
    requires |s.channels| == 2 && Holds(s.worker, yielded)
    ensures Holds(Next(s, step).worker,
      if Asks(s, step) then (if step.worker.ok && |step.worker.frames| <= WORK_BATCH then step.worker.frames else []) else yielded)
  {
    match step
    case L(act) => LifeKeepsLogs(s, act); hide LifeStep;
    case M(act) =>
    case W(act) => HoldWorker(s, act, yielded); hide WorkerStep;
  }

  lemma HoldWorker(s: State, act: WorkerAct, yielded: seq<int>)
    requires |s.channels| == 2 && Holds(s.worker, yielded)
    ensures Holds(WorkerStep(s, act).worker,
      if Asks(s, W(act)) then (if act.ok && |act.frames| <= WORK_BATCH then act.frames else []) else yielded)
  {
    match act
    case Look =>
    case Grab =>
    case Acquire =>
    case Recheck =>
    case SendOne =>
    case Fetch(frames, ok) => if s.worker.Sends? { assert Tagged([], s.worker.token) == []; }
    case LetGo =>
    case Store =>
  }

  lemma {:induction false} WorkerHolds(steps: seq<Step>)
    ensures Holds(Run(steps).worker, Yielded(steps))
  {
    if steps != [] {
      hide Next, Holds;
      WorkerHolds(steps[..|steps|-1]);
      HoldStep(Run(steps[..|steps|-1]), steps[|steps|-1], Yielded(steps[..|steps|-1]));
    }
  }

  /** The frames this step keeps for the model: of those yielded as many as there is room for, if
      the channel still has the owner they were asked for. */
  function KeepOf(s: State, yielded: seq<int>, step: Step): seq<Frame>
    requires |s.channels| == 2
  {
    if step.W? && step.worker.Store? && s.worker.Stores? && s.worker.i < 2 && s.channels[s.worker.i].token == s.worker.token
      && |s.channels[s.worker.i].rx| <= QUEUE_CAPACITY
    then Tagged(yielded[..Min(|yielded|, QUEUE_CAPACITY - |s.channels[s.worker.i].rx|)], s.worker.token) else []
  }

  function Kept(steps: seq<Step>): seq<Frame> {
    if steps == [] then []
    else
      var front := steps[..|steps|-1];
      Kept(front) + KeepOf(Run(front), Yielded(front), steps[|steps|-1])
  }

  lemma KeepStep(s: State, step: Step, yielded: seq<int>)
    requires Inv(s) && Holds(s.worker, yielded)
    ensures Plain(Next(s, step).stored) == Plain(s.stored) + KeepOf(s, yielded, step)
  {
    assert |s.channels| == 2 && Plain(s.stored) + [] == Plain(s.stored);
    hide Inv, LifeStep, WorkerStep, ModelStep, Plain, Holds;
    match step
    case L(act) => LifeKeepsLogs(s, act);
    case M(act) => ModelKeepsStored(s, act);
    case W(act) => if act.Store? { StoreKept(s, yielded); } else { WorkerKeepsLogs(s, act); }
  }

  lemma ModelKeepsStored(s: State, act: ModelAct)
    requires |s.channels| == 2
    ensures ModelStep(s, act).stored == s.stored
  {}

  lemma StoreKept(s: State, yielded: seq<int>)
    requires Inv(s) && Holds(s.worker, yielded)
    ensures Plain(WorkerStep(s, Store).stored) == Plain(s.stored) + KeepOf(s, yielded, W(Store))
  {
    hide LifeOk, LogsOk, Tied, AllOwned;
    if s.worker.Stores? && s.worker.i < 2 && s.channels[s.worker.i].token == s.worker.token {
      var c := s.channels[s.worker.i];
      assert QueuesOk(c);
      var n := Min(|s.worker.batch|, QUEUE_CAPACITY - |c.rx|);
      var kept := s.worker.batch[..n];
      PlainJoins(s.stored, Crossings(kept, c.token, s.connected));
      PlainCrossings(kept, c.token, s.connected);
      assert kept == Tagged(yielded[..n], s.worker.token);
    }
  }

  /** In every interleaving the frames stored for the model are exactly those the device yielded, in
      order, as many at a time as the queue had room for while their owner owned the channel. */
  lemma {:induction false} StoredIsKept(steps: seq<Step>)
    ensures Plain(Run(steps).stored) == Kept(steps)
  {
    if steps != [] {
      hide Next, KeepOf, Plain, Inv, Holds;
      var front := steps[..|steps|-1];
      StoredIsKept(front);
      Reachable(front);
      WorkerHolds(front);
      KeepStep(Run(front), steps[|steps|-1], Yielded(front));
    } else {
      assert Plain([]) == [];
    }
  }

  // ----- the worker gets there

  /** The frames the worker has taken from a queue and not sent. */
  function Batch(w: Worker): seq<Frame> { if w.WaitsForSdk? || w.Rechecks? || w.Sends? then w.batch else [] }

  /** Frames accepted and not sent. */
  function Backlog(s: State): nat
    requires |s.channels| == 2
  {
    |s.channels[0].tx| + |s.channels[1].tx| + |Batch(s.worker)|
  }

  /** Where the worker is on its way over the two channels. */
  function Spot(w: Worker): nat {
    match w
    case AtChannel(i) => if i == 0 then 1 else if i == 1 then 7 else 13
    case WaitsForSdk(i, _, _) => if i == 0 then 2 else 8
    case Rechecks(i, _, _) => if i == 0 then 3 else 9
    case Sends(i, _, _) => if i == 0 then 4 else 10
    case Fetched(i, _, _) => if i == 0 then 5 else 11
    case Stores(i, _, _) => if i == 0 then 6 else 12
    case _ => 0
  }

  /** How far it is from the next queue that is not empty, or from sending what it holds. */
  function Away(s: State): nat
    requires |s.channels| == 2
  {
    var goal, spot := if s.channels[0].tx != [] then 1 else 7, Spot(s.worker);
    if Batch(s.worker) != [] then 13 - spot else if spot <= goal then goal - spot else goal + 14 - spot
  }

  /** The lifecycle thread is idle and the device in use. */
  predicate Serving(s: State) { s.life.Outside? && s.running }

  lemma TurnSends(s: State)
    requires Inv(s) && Serving(s) && Backlog(s) > 0
    ensures
      var t := WorkerStep(s, Turn(s.worker));
      && Serving(t) && t.accepted == s.accepted
      && t.channels[0].token == s.channels[0].token && t.channels[1].token == s.channels[1].token
      && (Backlog(t) < Backlog(s)
        || (Backlog(t) == Backlog(s)
          && (if Batch(s.worker) == [] then Batch(t.worker) != [] || Away(t) < Away(s) else Batch(t.worker) != [] && Away(t) < Away(s))))
  {
    hide AllOwned, Proper, Tied, Follows;
  }

  /** From every state in which the lifecycle thread is idle the worker's own steps empty both queues. */
  lemma {:induction false} WorkerEmpties(s: State) returns (n: nat)
    requires Inv(s) && Serving(s)
    ensures
      var t := Turns(s, n);
      && Inv(t) && Backlog(t) == 0 && t.accepted == s.accepted
      && t.channels[0].token == s.channels[0].token && t.channels[1].token == s.channels[1].token
    decreases Backlog(s), if Batch(s.worker) == [] then 1 else 0, Away(s)
  {
    hide ChannelOk, WorkerOk, LifeOk, LogsOk, WorkerStep, Away, Serving;
    if Backlog(s) == 0 {
      n := 0;
    } else {
      TurnSends(s);
      NextKeeps(s, W(Turn(s.worker)));
      var m := WorkerEmpties(WorkerStep(s, Turn(s.worker)));
      n := m + 1;
    }
  }

  /** In every run: when the lifecycle thread is idle, the worker alone brings every frame accepted for
      the owner of a channel to the device. */
  lemma AcceptedIsSent(steps: seq<Step>, i: nat) returns (n: nat)
    requires i < 2 && Run(steps).life.Outside? && Run(steps).channels[i].token != 0
    ensures
      var s, t := Run(steps), Turns(Run(steps), n);
      && t.channels[i].token == s.channels[i].token
      && FramesOf(t.toSdk, s.channels[i].token) == FramesOf(s.accepted, s.channels[i].token)
  {
    hide Run, FramesOf, Proper, Follows, QueuesOk;
    Reachable(steps);
    var s := Run(steps);
    n := WorkerEmpties(s);
    var t := Turns(s, n);
    var c := t.channels[i];
    hide Turns;
    assert InFlight(t.worker, i, c.token) == [] && c.tx == [];
    assert Tied(t.toSdk, t.accepted, c.token, InFlight(t.worker, i, c.token) + c.tx);
    assert FramesOf(t.toSdk, c.token) + ([] + []) == FramesOf(t.toSdk, c.token);
  }

  // ----- the model gets there

  function Reads(s: State, i: nat, n: nat): (t: State)
    requires |s.channels| == 2
    ensures |t.channels| == 2
    decreases n
  {
    if n == 0 then s else Reads(ModelStep(s, Read(i)), i, n - 1)
  }

  lemma {:induction false} ReadsEmpty(s: State, i: nat)
    requires Inv(s) && i < 2 && s.channels[i].token != 0
    ensures
      var t := Reads(s, i, |s.channels[i].rx|);
      Inv(t) && t.channels[i].rx == [] && t.stored == s.stored && t.channels[i].token == s.channels[i].token
    decreases |s.channels[i].rx|
  {
    hide ChannelOk, WorkerOk, LifeOk, LogsOk;
    if s.channels[i].rx != [] {
      NextKeeps(s, M(Read(i)));
      ReadsEmpty(ModelStep(s, Read(i)), i);
    }
  }

  /** In every run a model that keeps reading an owned channel gets every frame stored for its owner. */
  lemma StoredIsRead(steps: seq<Step>, i: nat)
    requires i < 2 && Run(steps).channels[i].token != 0
    ensures
      var s := Run(steps);
      var c := s.channels[i];
      FramesOf(Reads(s, i, |c.rx|).toModel, c.token) == FramesOf(s.stored, c.token)
  {
    hide Run, FramesOf, Proper, Follows, QueuesOk, Reads;
    Reachable(steps);
    var s := Run(steps);
    ReadsEmpty(s, i);
    var t := Reads(s, i, |s.channels[i].rx|);
    var c := t.channels[i];
    assert Tied(t.toModel, t.stored, c.token, c.rx);
    assert FramesOf(t.toModel, c.token) + [] == FramesOf(t.toModel, c.token);
  }

  // ----- configure and release get there

  /** A configure of a free channel, on an idle driver with everything going well, installs a new
      owner with empty queues and leaves the other channel alone. */
  lemma SetupInstalls(steps: seq<Step>, i: nat)
    requires i < 2 && Run(steps).life.Outside? && SdkFree(Run(steps)) && Run(steps).channels[i].token == 0
    ensures
      var s := Run(steps);
      var t := Run(steps + [L(BeginSetup(i, true))] + [L(TakeSdk)] + [L(Connect(true))] + [L(Start(true))] + [L(Install)]);
      && t.channels == s.channels[i := Channel(s.nextToken + 1, [], [])] && t.nextToken == s.nextToken + 1
      && t.life.Outside? && t.running && t.connected && !t.stop
      && t.worker == (if s.running then s.worker else Top)
  {
    var s := Run(steps);
    Reachable(steps);
    hide Run, ChannelOk, WorkerOk, LogsOk;
    RunOne(steps, L(BeginSetup(i, true)));
    RunOne(steps + [L(BeginSetup(i, true))], L(TakeSdk));
    RunOne(steps + [L(BeginSetup(i, true))] + [L(TakeSdk)], L(Connect(true)));
    RunOne(steps + [L(BeginSetup(i, true))] + [L(TakeSdk)] + [L(Connect(true))], L(Start(true)));
    RunOne(steps + [L(BeginSetup(i, true))] + [L(TakeSdk)] + [L(Connect(true))] + [L(Start(true))], L(Install));
  }

  /** A configure that is refused, or whose device does not connect or whose worker does not start,
      leaves both channels and the use of the device as they were. */
  lemma SetupFails(steps: seq<Step>, i: nat, sameDevice: bool, connects: bool)
    requires i < 2 && Run(steps).life.Outside? && SdkFree(Run(steps))
    ensures
      var s := Run(steps);
      var t := Run(steps + [L(BeginSetup(i, sameDevice))] + [L(TakeSdk)] + [L(Connect(connects))] + [L(Start(false))]);
      && t.channels == s.channels && t.nextToken == s.nextToken && t.running == s.running && t.connected == s.connected && t.worker == s.worker
      && (t.life.SetupInstalls? <==> s.channels[i].token == 0 && s.running && sameDevice && connects)
      && (!t.life.SetupInstalls? ==> t.life.Outside?)
      && (s.channels[i].token == 0 && !s.running && connects ==> !t.stop)
  {
    var s := Run(steps);
    Reachable(steps);
    hide Run, Inv;
    RunOne(steps, L(BeginSetup(i, sameDevice)));
    RunOne(steps + [L(BeginSetup(i, sameDevice))], L(TakeSdk));
    RunOne(steps + [L(BeginSetup(i, sameDevice))] + [L(TakeSdk)], L(Connect(connects)));
    RunOne(steps + [L(BeginSetup(i, sameDevice))] + [L(TakeSdk)] + [L(Connect(connects))], L(Start(false)));
    FailedSetup(s, i, sameDevice, connects);
    hide LifeStep;
  }

  lemma FailedSetup(s: State, i: nat, sameDevice: bool, connects: bool)
    requires Inv(s) && i < 2 && s.life.Outside? && SdkFree(s)
    ensures
      var t := LifeStep(LifeStep(LifeStep(LifeStep(s, BeginSetup(i, sameDevice)), TakeSdk), Connect(connects)), Start(false));
      && t.channels == s.channels && t.nextToken == s.nextToken && t.running == s.running && t.connected == s.connected && t.worker == s.worker
      && (t.life.SetupInstalls? <==> s.channels[i].token == 0 && s.running && sameDevice && connects)
      && (!t.life.SetupInstalls? ==> t.life.Outside?)
      && (s.channels[i].token == 0 && !s.running && connects ==> !t.stop)
  {
    hide ChannelOk, WorkerOk, LogsOk;
  }

  lemma RunOne(steps: seq<Step>, step: Step)
    ensures Run(steps + [step]) == Next(Run(steps), step)
  {
    hide Next;
    assert (steps + [step])[..|steps|] == steps;
  }

  /** The join waits for the worker, and then the device is free again. */
  lemma JoinWaits(s: State)
    requires |s.channels| == 2 && s.life.ReleaseJoins?
    ensures LifeStep(s, Join) ==
      if s.worker.Exited? then s.(life := Outside, worker := NotStarted, connected := false, running := false) else s
  {}

  /** A release of an owner, on an idle driver, frees its channel and no other; with the last owner
      the worker is told to stop and is joined. */
  lemma ReleaseFrees(steps: seq<Step>, i: nat)
    requires i < 2 && Run(steps).life.Outside? && SdkFree(Run(steps)) && Run(steps).channels[i].token != 0
    ensures
      var s := Run(steps);
      var t := Run(steps + [L(BeginRelease(s.channels[i].token))] + [L(TakeSdk)] + [L(ClearOwner)]);
      && t.channels == s.channels[i := FREE]
      && (if s.channels[1 - i].token != 0 then t.life.Outside? && t.stop == s.stop else t.life.ReleaseJoins? && t.stop)
  {
    var s := Run(steps);
    Reachable(steps);
    hide Run, ChannelOk, WorkerOk, LogsOk;
    var token := s.channels[i].token;
    RunOne(steps, L(BeginRelease(token)));
    RunOne(steps + [L(BeginRelease(token))], L(TakeSdk));
    RunOne(steps + [L(BeginRelease(token))] + [L(TakeSdk)], L(ClearOwner));
  }
}
