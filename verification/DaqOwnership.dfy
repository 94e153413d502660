/** Who consumes the frames of a DAQ acquisition, through every way its start and stop can fail.

    Policies are numbered in the order they are created. The slave is foreign: what its commands
    come to is part of the call, and a command that fails may or may not have reached it.
    Exchanging the client's consumer is one step that does not fail. `streaming` is whether the
    slave is sending DAQ frames. */
module DaqOwnership {

  datatype Outcome =
    | Started | AlreadyActive | Refused
    | StartFailed        // everything start had done is undone
    | StopUnconfirmed    // start failed and the slave may still be streaming: stop must be retried
    | Stopped | StopFailed

  /** What `startStopSynch` comes to: it reached the slave, and the slave confirmed it. */
  datatype Answer = Answer(reached: bool, confirmed: bool)

  /** Where a start fails, if it does; the two commands that start and stop the stream. */
  datatype Course = Course(selects: bool, unlocks: bool, setsUp: bool, prepares: bool, start: Answer, stop: Answer)

  datatype Call = Begin(course: Course) | End(stop: Answer)

  /** The state between calls: `consumer` is the policy the client hands frames to, and all
      policies created so far except a consumer of ours are finalized. */
  datatype Holding = Holding(consumer: nat, active: bool, streaming: bool, created: nat)

  /** A confirmed command did reach the slave. */
  predicate Took(a: Answer) { a.reached || a.confirmed }

  predicate Attaches(c: Course) { c.unlocks && c.setsUp && c.prepares }

  function OutcomeOf(h: Holding, call: Call): Outcome {
    match call
    case Begin(c) =>
      if h.active then AlreadyActive
      else if !c.selects then Refused
      else if Attaches(c) && c.start.confirmed then Started
      else if Attaches(c) && !c.stop.confirmed then StopUnconfirmed
      else StartFailed
    case End(a) => if !h.active || a.confirmed then Stopped else StopFailed
  }

  /** The call, with `base` the consumer that was installed before any of ours. */
  function After(h: Holding, base: nat, call: Call): Holding {
    match OutcomeOf(h, call)
    case AlreadyActive => h
    case Refused => h
    case Started => Holding(h.created + 1, true, true, h.created + 1)
    case StopUnconfirmed => Holding(h.created + 1, true, Took(call.course.start) && !call.course.stop.reached, h.created + 1)
    case StartFailed => Holding(h.consumer, false, false, h.created + 1)
    case Stopped => Holding(base, false, false, h.created)
    case StopFailed => h.(streaming := h.streaming && !call.stop.reached)
  }

  function Run(installed: nat, calls: seq<Call>): Holding {
    if calls == [] then Holding(installed, false, false, installed)
    else After(Run(installed, calls[..|calls|-1]), installed, calls[|calls|-1])
  }

  /** A stream has a live consumer of ours, and only an active acquisition has changed anything. */
  predicate Owned(h: Holding, base: nat) {
    && (h.streaming ==> h.active)
    && (if h.active then base < h.consumer == h.created else h.consumer == base <= h.created)
  }

  /** Any run of starts and stops, failing wherever they like: a slave that streams has a policy of
      ours as its consumer, and whenever the acquisition is not active nothing streams and the
      client has the consumer it was found with. */
  lemma {:induction false} EveryRun(installed: nat, calls: seq<Call>)
    ensures Owned(Run(installed, calls), installed)
  {
    if calls != [] { EveryRun(installed, calls[..|calls|-1]); }
  }

  /** After any run, however it failed, one stop that the slave confirms leaves nothing behind. */
  lemma StopAlwaysRecovers(installed: nat, calls: seq<Call>, reached: bool)
    ensures
      var h := Run(installed, calls + [End(Answer(reached, true))]);
      !h.active && !h.streaming && h.consumer == installed
  {
    EveryRun(installed, calls);
    assert (calls + [End(Answer(reached, true))])[..|calls|] == calls;
  }

  /** After any run that has left no acquisition active: a start all of whose commands go well leaves
      the slave streaming to a new policy of ours, and a stop that is confirmed then ends it. A start
      that fails anywhere is undone, unless the stop is not confirmed once our consumer is in place;
      then the acquisition stays active, for a stop to come. */
  lemma StartsAndStops(installed: nat, calls: seq<Call>, c: Course, stop: Answer)
    requires !Run(installed, calls).active
    ensures
      var h, t, e := Run(installed, calls), Run(installed, calls + [Begin(c)]), Run(installed, calls + [Begin(c)] + [End(stop)]);
      var good := c.selects && c.unlocks && c.setsUp && c.prepares && c.start.confirmed;
      var owed := c.selects && c.unlocks && c.setsUp && c.prepares && !c.start.confirmed && !c.stop.confirmed;
      && (good ==> OutcomeOf(h, Begin(c)) == Started && t == Holding(h.created + 1, true, true, h.created + 1))
      && (owed ==> OutcomeOf(h, Begin(c)) == StopUnconfirmed && t == Holding(h.created + 1, true, t.streaming, h.created + 1))
      && (owed ==> (t.streaming <==> c.start.reached && !c.stop.reached))
      && (!good && !owed ==> OutcomeOf(h, Begin(c)) == if c.selects then StartFailed else Refused)
      && (!good && !owed ==> !t.active && !t.streaming && t.consumer == installed)
      && (OutcomeOf(t, End(stop)) == if t.active && !stop.confirmed then StopFailed else Stopped)
      && (e.active <==> t.active && !stop.confirmed) && (e.streaming <==> t.streaming && !stop.confirmed && !stop.reached)
      && (OutcomeOf(t, Begin(c)) == AlreadyActive <==> t.active)
  {
    EveryRun(installed, calls);
    assert (calls + [Begin(c)])[..|calls|] == calls;
    assert (calls + [Begin(c)] + [End(stop)])[..|calls| + 1] == calls + [Begin(c)];
  }

  class Acquisition {
    var consumer: nat       // the policy the client hands frames to
    var previous: seq<nat>  // the policy to put back, while ours is installed
    var policy: seq<nat>    // our newest policy that was ever installed
    var active: bool
    var finalized: set<nat>
    var created: nat
    ghost var base: nat     // the consumer when nothing of ours is installed
    ghost var streaming: bool

    ghost predicate Valid()
      reads this
    {
      && Owned(View(), base) && base !in finalized
      && (active ==> policy == [consumer] && previous == [base])
      && (!active ==> previous == [])
      && (forall p: nat :: p in finalized <==> base < p <= created && p != consumer)
    }

    ghost function View(): Holding
      reads this
    {
      Holding(consumer, active, streaming, created)
    }

    constructor (installed: nat)
      ensures Valid() && View() == Run(installed, []) && base == installed
    {
      consumer, previous, policy, active, finalized, created := installed, [], [], false, {}, installed;
      base, streaming := installed, false;
    }

    /** `startStopSynch(0)`: confirmed, nothing streams any more. */
    method StopTarget(answer: Answer) returns (confirmed: bool)
      modifies this`streaming
      ensures confirmed == answer.confirmed && streaming == (old(streaming) && !Took(answer))
    {
      if Took(answer) { streaming := false; }
      confirmed := answer.confirmed;
    }

    /** `start`. A failure either undoes everything, or says that the stop is still owed and keeps
        the consumer in place for it. */
    method Start(c: Course) returns (r: Outcome)
      requires Valid()
      modifies this
      ensures Valid() && base == old(base)
      ensures r == OutcomeOf(old(View()), Begin(c)) && View() == After(old(View()), base, Begin(c))
      ensures r == StartFailed ==> !active && consumer == old(consumer) && !streaming && created in finalized
    {
      if active { return AlreadyActive; }
      if !c.selects { return Refused; }
      created := created + 1;
      var own := created;
      var changedTarget, attached, failed := false, false, !c.unlocks;
      if !failed {
        changedTarget := true;
        failed := !c.setsUp || !c.prepares;
      }
      if !failed {
        previous, consumer, attached, policy := [consumer], own, true, [own];
        streaming := Took(c.start);
        failed := !c.start.confirmed;
      }
      if !failed {
        active := true;
        return Started;
      }
      var confirmed := true;
      if changedTarget { confirmed := StopTarget(c.stop); }
      if attached && !confirmed {
        active := true;
        return StopUnconfirmed;
      }
      if attached { consumer, previous := previous[0], []; }
      finalized := finalized + {own};
      r := StartFailed;
    }

    /** `stop`: afterwards nothing is left behind, or nothing has changed and it can be retried. */
    method Stop(answer: Answer) returns (r: Outcome)
      requires Valid()
      modifies this
      ensures Valid() && base == old(base)
      ensures r == OutcomeOf(old(View()), End(answer)) && View() == After(old(View()), base, End(answer))
      ensures r == StopFailed ==> finalized == old(finalized)
    {
      if !active { return Stopped; }
      var confirmed := StopTarget(answer);
      if !confirmed { return StopFailed; }
      finalized := finalized + {consumer};
      consumer, previous, active := previous[0], [], false;
      r := Stopped;
    }
  }

  /** The calls made on an acquisition end in the state `Run` computes, and every policy ever
      created is finalized unless it is the consumer. */
  method RunAcquisition(installed: nat, calls: seq<Call>) returns (consumer: nat, active: bool, finalized: set<nat>, created: nat)
    ensures var h := Run(installed, calls); consumer == h.consumer && active == h.active && created == h.created
    ensures forall p: nat :: p in finalized <==> installed < p <= created && p != consumer
  {
    hide Owned, After;
    var a := new Acquisition(installed);
    for i := 0 to |calls|
      invariant fresh(a) && a.Valid() && a.base == installed && a.View() == Run(installed, calls[..i])
    {
      assert calls[..i + 1][..i] == calls[..i];
      var r;
      match calls[i]
      case Begin(course) => r := a.Start(course);
      case End(stop) => r := a.Stop(stop);
    }
    assert calls[..|calls|] == calls;
    consumer, active, finalized, created := a.consumer, a.active, a.finalized, a.created;
  }
}
