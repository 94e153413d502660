/** What the confirmed network change achieves when all goes well.

    From every state that a run can reach, whoever is free to move gets where it wants to: a
    configure applies the change, a confirm in time makes it last, and the watchdog takes it back
    once the deadline has passed. */
module NetworkProgress {
  import opened NetworkTransaction

  lemma {:induction false} RunJoins(p: Plan, s: State, steps: seq<Step>, more: seq<Step>)
    ensures Run(p, s, steps + more) == Run(p, Run(p, s, steps), more)
  {
    if more == [] {
      assert steps + more == steps;
    } else {
      assert (steps + more)[..|steps + more|-1] == steps + more[..|more|-1];
      RunJoins(p, s, steps, more[..|more|-1]);
      hide Next;
    }
  }

  function Times(step: Step, n: nat): seq<Step> { if n == 0 then [] else Times(step, n - 1) + [step] }

  /** The first `n` files from `a`, the others from `b`. */
  function Mixed(a: seq<int>, b: seq<int>, n: nat): (m: seq<int>)
    requires n <= |a| == |b|
    ensures |m| == |a|
  {
    a[..n] + b[n..]
  }

  lemma MixedNext(a: seq<int>, b: seq<int>, n: nat)
    requires n < |a| == |b|
    ensures Mixed(a, b, n)[n := a[n]] == Mixed(a, b, n + 1)
  {}

  lemma MixedEnds(a: seq<int>, b: seq<int>)
    requires |a| == |b|
    ensures Mixed(a, b, 0) == b && Mixed(a, b, |a|) == a
  {}

  // ----- configure

  /** A configure that nothing stops applies the new live configuration and leaves a watchdog. */
  lemma ConfigureApplies(p: Plan, now: int)
    ensures
      var steps := [C(Spawn(true)), C(OpenLock), C(TakeLock), C(Change), C(Finish(true))];
      Run(p, Init(p, now), steps) == Init(p, now).(configure := CDone, live := NewLive, watchdog := WStarting)
  {
    hide Run;
    var s := Init(p, now);
    RunNone(p, s);
    var r := Extend(p, s, [], C(Spawn(true)), s.(configure := CSpawned, watchdog := WStarting));
    r := Extend(p, s, r, C(OpenLock), s.(configure := COpened, watchdog := WStarting));
    r := Extend(p, s, r, C(TakeLock), s.(configure := CLocked, watchdog := WStarting));
    r := Extend(p, s, r, C(Change), s.(configure := CLocked, watchdog := WStarting, live := MixedLive));
    r := Extend(p, s, r, C(Finish(true)), s.(configure := CDone, watchdog := WStarting, live := NewLive));
    assert r == [C(Spawn(true)), C(OpenLock), C(TakeLock), C(Change), C(Finish(true))];
  }

  /** A configure whose commands fail takes back what it has done, and calls the watchdog off. */
  lemma ConfigureUndoes(p: Plan, now: int, steps: seq<Step>)
    requires ValidPlan(p) && Run(p, Init(p, now), steps).configure.CLocked?
    ensures
      var s, t := Run(p, Init(p, now), steps), Run(p, Init(p, now), steps + [C(Finish(false)), C(Restore(true))]);
      && t.configure.CFailed? && t.live.OldLive? && t.files == p.original && !t.confirmed
      && (s.directory ==> t.marker)
  {
    hide Run, WatchdogStep, ConfirmStep;
    var s := Run(p, Init(p, now), steps);
    RunNone(p, s);
    var r := Extend(p, s, [], C(Finish(false)), s.(configure := CRestoring));
    r := Extend(p, s, r, C(Restore(true)), s.(configure := CFailed, live := OldLive, marker := s.marker || s.directory));
    assert r == [C(Finish(false)), C(Restore(true))];
    RunJoins(p, Init(p, now), steps, r);
    EveryRun(p, now, steps);
    hide Exclusive, Timed, LiveOk, FilesOk;
  }

  // ----- confirm

  /** The steps of a confirm all of whose answers are good. */
  function ConfirmSteps(p: Plan): seq<Step> {
    [K(Enter)] + [K(Check(true))]
    + (if p.original == [] then []
       else [K(Compare)] + [K(TruncateState(true))] + [K(WriteState(true))] + Times(K(WriteFile(true)), |p.updated| + 1) + [K(CheckTime)])
    + [K(Mark)]
  }

  /** A confirm would find everything as configure left it. */
  predicate Confirmable(p: Plan, s: State) {
    s.configure.CDone? && Free(s) && s.directory && !s.stateFile.Torn? && s.files == p.original
  }

  lemma {:induction false} WritesFiles(p: Plan, s: State, n: nat)
    requires ValidPlan(p) && s.confirm == KWriting(0) && s.files == p.original && n <= |p.updated|
    ensures Run(p, s, Times(K(WriteFile(true)), n)) == s.(confirm := KWriting(n), files := Mixed(p.updated, p.original, n))
  {
    hide Run, Mixed, Next;
    if n == 0 {
      RunNone(p, s);
      MixedEnds(p.updated, p.original);
    } else {
      WritesFiles(p, s, n - 1);
      MixedNext(p.updated, p.original, n - 1);
      WritesOne(p, s.(confirm := KWriting(n - 1), files := Mixed(p.updated, p.original, n - 1)));
      var r := Extend(p, s, Times(K(WriteFile(true)), n - 1), K(WriteFile(true)),
        s.(confirm := KWriting(n), files := Mixed(p.updated, p.original, n)));
    }
  }

  lemma WritesOne(p: Plan, s: State)
    requires s.confirm.KWriting? && s.confirm.next < |p.updated| == |s.files|
    ensures Next(p, s, K(WriteFile(true)))
      == s.(files := s.files[s.confirm.next := p.updated[s.confirm.next]], confirm := KWriting(s.confirm.next + 1))
  {}

  /** The part of a persistent confirm that changes files, up to the last look at the clock. */
  lemma SavesFiles(p: Plan, s: State)
    requires ValidPlan(p) && s.confirm == KWriting(0) && s.files == p.original
    ensures Run(p, s, Times(K(WriteFile(true)), |p.updated| + 1)) == s.(confirm := KSaved, files := p.updated)
  {
    WritesFiles(p, s, |p.updated|);
    MixedEnds(p.updated, p.original);
    hide Run, Mixed;
    var r := Extend(p, s, Times(K(WriteFile(true)), |p.updated|), K(WriteFile(true)), s.(confirm := KSaved, files := p.updated));
  }

  lemma ConfirmRuns(p: Plan, s: State)
    requires ValidPlan(p) && Confirmable(p, s) && !TooLate(p, s)
    ensures Run(p, s, ConfirmSteps(p)) ==
      s.(marker := true, confirmed := true, files := p.updated, stateFile := if p.original == [] then s.stateFile else NetplanWritten)
  {
    hide Run, Times;
    if p.original == [] {
      MarksOnly(p, s);
    } else {
      var t := s.(confirm := KWriting(0), stateFile := NetplanWritten);
      var r := RecordsFirst(p, s);
      var writes := Times(K(WriteFile(true)), |p.updated| + 1);
      RunJoins(p, s, r, writes);
      SavesFiles(p, t);
      MarksLast(p, s, r + writes, t.(confirm := KSaved, files := p.updated));
      assert r + writes + [K(CheckTime)] + [K(Mark)] == ConfirmSteps(p);
    }
  }

  /** A change that is not persistent has no files to write. */
  lemma MarksOnly(p: Plan, s: State)
    requires ValidPlan(p) && p.original == [] && Confirmable(p, s) && !TooLate(p, s)
    ensures Run(p, s, ConfirmSteps(p)) == s.(marker := true, confirmed := true, files := p.updated)
  {
    hide Run, ConfigureStep, WatchdogStep;
    RunNone(p, s);
    var r := Extend(p, s, [], K(Enter), s.(confirm := KLocked));
    r := Extend(p, s, r, K(Check(true)), s.(confirm := KMarking));
    r := Extend(p, s, r, K(Mark), s.(marker := true, confirmed := true));
    assert r == ConfirmSteps(p) && s.files == [] == p.updated;
  }

  /** The state file says that files may be new before the first one is. */
  lemma RecordsFirst(p: Plan, s: State) returns (r: seq<Step>)
    requires ValidPlan(p) && p.original != [] && Confirmable(p, s) && !TooLate(p, s)
    ensures r == [K(Enter)] + [K(Check(true))] + [K(Compare)] + [K(TruncateState(true))] + [K(WriteState(true))]
    ensures Run(p, s, r) == s.(confirm := KWriting(0), stateFile := NetplanWritten)
  {
    hide Run, ConfigureStep, WatchdogStep;
    r := Compares(p, s);
    r := Extend(p, s, r, K(TruncateState(true)), s.(confirm := KRecording, stateFile := Torn));
    r := Extend(p, s, r, K(WriteState(true)), s.(confirm := KWriting(0), stateFile := NetplanWritten));
  }

  lemma Compares(p: Plan, s: State) returns (r: seq<Step>)
    requires p.original != [] && Confirmable(p, s) && !TooLate(p, s)
    ensures r == [K(Enter)] + [K(Check(true))] + [K(Compare)] && Run(p, s, r) == s.(confirm := KCompared)
  {
    hide Run, ConfigureStep, WatchdogStep;
    RunNone(p, s);
    r := Extend(p, s, [], K(Enter), s.(confirm := KLocked));
    r := Extend(p, s, r, K(Check(true)), s.(confirm := KChecked));
    r := Extend(p, s, r, K(Compare), s.(confirm := KCompared));
  }

  lemma MarksLast(p: Plan, s: State, r: seq<Step>, t: State)
    requires Run(p, s, r) == t && t.confirm.KSaved? && t.directory && !TooLate(p, t)
    ensures Run(p, s, r + [K(CheckTime)] + [K(Mark)]) == t.(confirm := KIdle, marker := true, confirmed := true)
  {
    hide Run, ConfigureStep, WatchdogStep;
    var q := Extend(p, s, r, K(CheckTime), t.(confirm := KMarking));
    q := Extend(p, s, q, K(Mark), t.(confirm := KIdle, marker := true, confirmed := true));
  }

  /** From every reachable state in which configure is done and its work untouched, a confirm all of
      whose answers are good makes the change last exactly if it comes in time: then both the live
      configuration and all files are new, and stay so whatever happens afterwards. */
  lemma ConfirmSucceedsIffInTime(p: Plan, now: int, steps: seq<Step>, more: seq<Step>)
    requires ValidPlan(p) && Confirmable(p, Run(p, Init(p, now), steps))
    ensures
      var s := Run(p, Init(p, now), steps);
      var t, u := Run(p, Init(p, now), steps + ConfirmSteps(p)), Run(p, Init(p, now), steps + ConfirmSteps(p) + more);
      && (t.confirmed <==> s.confirmed || s.now < p.deadline - 2)
      && (t.confirmed ==> u.confirmed && u.live.NewLive? && u.files == p.updated && AllOrNothing(p, u))
  {
    hide Run;
    var s := Run(p, Init(p, now), steps);
    RunJoins(p, Init(p, now), steps, ConfirmSteps(p));
    if s.confirmed {
      RunKeepsMarks(p, now, steps, ConfirmSteps(p));
    } else if TooLate(p, s) {
      TooLateIsForGood(p, now, steps, ConfirmSteps(p));
    } else {
      ConfirmRuns(p, s);
    }
    RunKeepsMarks(p, now, steps + ConfirmSteps(p), more);
    EveryRun(p, now, steps + ConfirmSteps(p) + more);
    hide ConfirmSteps, Exclusive, Untouched, Timed;
  }

  /** A confirm that is refused leaves everything as it was. */
  lemma RefusedChangesNothing(p: Plan, s: State, pass: bool)
    requires s.confirm.KIdle? && (!pass || TooLate(p, s) || !s.directory || s.stateFile.Torn?)
    ensures Run(p, s, [K(Enter), K(Check(pass))]) == s
  {
    hide Run;
    RunNone(p, s);
    var entered := s.configure.CDone? && Free(s);
    var r := Extend(p, s, [], K(Enter), if entered then s.(confirm := KLocked) else s);
    r := Extend(p, s, r, K(Check(pass)), s);
    assert r == [K(Enter), K(Check(pass))];
  }

  lemma {:induction false} UndoesFiles(p: Plan, s: State, n: nat)
    requires ValidPlan(p) && s.confirm == KUndoing(0) && |s.files| == |p.original| && n <= |p.original|
    ensures Run(p, s, Times(K(UndoFile(true)), n)) == s.(confirm := KUndoing(n), files := Mixed(p.original, s.files, n))
  {
    hide Run, Mixed, Next;
    if n == 0 {
      RunNone(p, s);
      MixedEnds(p.original, s.files);
    } else {
      UndoesFiles(p, s, n - 1);
      MixedNext(p.original, s.files, n - 1);
      UndoesOne(p, s.(confirm := KUndoing(n - 1), files := Mixed(p.original, s.files, n - 1)));
      var r := Extend(p, s, Times(K(UndoFile(true)), n - 1), K(UndoFile(true)),
        s.(confirm := KUndoing(n), files := Mixed(p.original, s.files, n)));
    }
  }

  lemma UndoesOne(p: Plan, s: State)
    requires s.confirm.KUndoing? && s.confirm.next < |p.original| == |s.files|
    ensures Next(p, s, K(UndoFile(true)))
      == s.(files := s.files[s.confirm.next := p.original[s.confirm.next]], confirm := KUndoing(s.confirm.next + 1))
  {}

  /** A confirm that cannot write a file puts all of them back, if it can, and frees the lock; the
      watchdog still has the last word. */
  lemma FailedWriteIsUndone(p: Plan, now: int, steps: seq<Step>)
    requires ValidPlan(p) && Run(p, Init(p, now), steps).confirm.KWriting?
    ensures
      var s := Run(p, Init(p, now), steps);
      Run(p, Init(p, now), steps + ([K(WriteFile(false))] + Times(K(UndoFile(true)), |p.original| + 1)))
        == s.(confirm := KIdle, files := p.original)
  {
    hide Run;
    var s, undo := Run(p, Init(p, now), steps), Times(K(UndoFile(true)), |p.original|);
    EveryRun(p, now, steps);
    hide Exclusive, Timed, LiveOk, FilesOk;
    RunNone(p, s);
    var t := s.(confirm := KUndoing(0));
    var r := Extend(p, s, [], K(WriteFile(false)), t);
    RunJoins(p, s, r, undo);
    UndoesFiles(p, t, |p.original|);
    MixedEnds(p.original, s.files);
    hide Mixed;
    r := Extend(p, s, r + undo, K(UndoFile(true)), s.(confirm := KIdle, files := p.original));
    assert r == [K(WriteFile(false))] + Times(K(UndoFile(true)), |p.original| + 1);
    RunJoins(p, Init(p, now), steps, r);
  }

  /** Not confirmed, too late, and nobody past the last look at the clock. */
  ghost predicate Missed(p: Plan, s: State) { !s.confirmed && TooLate(p, s) && !s.confirm.KMarking? }

  lemma StaysMissed(p: Plan, s: State, step: Step)
    requires Missed(p, s)
    ensures Missed(p, Next(p, s, step))
  {
    hide ConfigureStep, WatchdogStep, ConfirmStep;
    if step.K? { ConfirmMissed(p, s, step.k); }
  }

  lemma ConfirmMissed(p: Plan, s: State, act: ConfirmAct)
    requires Missed(p, s)
    ensures Missed(p, ConfirmStep(p, s, act))
  {
    if act.Check? || act.CheckTime? || act.Mark? || act.Enter? {
      match act
      case Enter =>
      case Check(pass) =>
      case CheckTime =>
      case Mark =>
    } else {
      if act.WriteFile? || act.UndoFile? || act.Abort? { FilesMissed(p, s, act); } else { RecordMissed(p, s, act); }
      hide ConfirmStep;
    }
  }

  lemma RecordMissed(p: Plan, s: State, act: ConfirmAct)
    requires Missed(p, s) && (act.Compare? || act.TruncateState? || act.WriteState?)
    ensures Missed(p, ConfirmStep(p, s, act))
  {
    match act
    case Compare =>
    case TruncateState(done) =>
    case WriteState(ok) =>
  }

  lemma FilesMissed(p: Plan, s: State, act: ConfirmAct)
    requires Missed(p, s) && (act.WriteFile? || act.UndoFile? || act.Abort?)
    ensures Missed(p, ConfirmStep(p, s, act))
  {
    match act
    case WriteFile(ok) =>
    case UndoFile(ok) =>
    case Abort =>
  }

  /** From two seconds before the deadline on no confirm succeeds any more, however far it has got
      short of the marker. */
  lemma {:induction false} TooLateIsForGood(p: Plan, now: int, steps: seq<Step>, more: seq<Step>)
    requires Missed(p, Run(p, Init(p, now), steps))
    ensures Missed(p, Run(p, Init(p, now), steps + more))
  {
    if more == [] {
      assert steps + more == steps;
    } else {
      var front := steps + more[..|more|-1];
      assert (steps + more)[..|steps + more|-1] == front;
      TooLateIsForGood(p, now, steps, more[..|more|-1]);
      StaysMissed(p, Run(p, Init(p, now), front), more[|more|-1]);
      hide Next, Missed;
    }
  }

  // ----- the watchdog

  /** The steps of a watchdog that waits for its turn, all of whose answers are good. */
  function RollbackSteps(p: Plan, s: State): seq<Step> {
    (if s.watchdog.WStarting? then [W(Read)] else []) + (if s.watchdog.WWaiting? then [] else [W(Poll)])
    + [W(Lock)] + [W(Decide)]
    + (if s.marker then []
       else (if s.stateFile.NetplanWritten? then Times(W(RestoreFile(true)), |p.original| + 1) else []) + [W(RestoreLive(true))])
    + [W(Remove)]
  }

  /** The watchdog's turn has come. */
  predicate Due(p: Plan, s: State) {
    && (s.watchdog.WStarting? || s.watchdog.WPolling? || s.watchdog.WWaiting?)
    && Free(s) && s.directory && !s.stateFile.Torn? && s.now >= p.deadline
  }

  lemma {:induction false} RestoresFiles(p: Plan, s: State, n: nat)
    requires ValidPlan(p) && s.watchdog == WFiles(0) && |s.files| == |p.original| && n <= |p.original|
    ensures Run(p, s, Times(W(RestoreFile(true)), n)) == s.(watchdog := WFiles(n), files := Mixed(p.original, s.files, n))
  {
    hide Run, Mixed, Next;
    if n == 0 {
      RunNone(p, s);
      MixedEnds(p.original, s.files);
    } else {
      RestoresFiles(p, s, n - 1);
      MixedNext(p.original, s.files, n - 1);
      RestoresOne(p, s.(watchdog := WFiles(n - 1), files := Mixed(p.original, s.files, n - 1)));
      var r := Extend(p, s, Times(W(RestoreFile(true)), n - 1), W(RestoreFile(true)),
        s.(watchdog := WFiles(n), files := Mixed(p.original, s.files, n)));
    }
  }

  lemma RestoresOne(p: Plan, s: State)
    requires s.watchdog.WFiles? && s.watchdog.next < |p.original| == |s.files|
    ensures Next(p, s, W(RestoreFile(true)))
      == s.(files := s.files[s.watchdog.next := p.original[s.watchdog.next]], watchdog := WFiles(s.watchdog.next + 1))
  {}

  lemma RestoresAll(p: Plan, s: State)
    requires ValidPlan(p) && s.watchdog == WFiles(0) && |s.files| == |p.original|
    ensures Run(p, s, Times(W(RestoreFile(true)), |p.original| + 1)) == s.(watchdog := WLive(false), files := p.original)
  {
    RestoresFiles(p, s, |p.original|);
    MixedEnds(p.original, s.files);
    hide Run, Mixed;
    var r := Extend(p, s, Times(W(RestoreFile(true)), |p.original|), W(RestoreFile(true)),
      s.(watchdog := WLive(false), files := p.original));
  }

  /** The watchdog up to its decision under the lock. */
  lemma GetsLock(p: Plan, s: State) returns (r: seq<Step>)
    requires Due(p, s)
    ensures r == (if s.watchdog.WStarting? then [W(Read)] else []) + (if s.watchdog.WWaiting? then [] else [W(Poll)]) + [W(Lock)]
    ensures Run(p, s, r) == s.(watchdog := WLocked)
  {
    hide Run, ConfigureStep, ConfirmStep;
    r := [];
    RunNone(p, s);
    if s.watchdog.WStarting? { r := Extend(p, s, r, W(Read), s.(watchdog := WPolling)); }
    if !s.watchdog.WWaiting? { r := Extend(p, s, r, W(Poll), s.(watchdog := WWaiting)); }
    r := Extend(p, s, r, W(Lock), s.(watchdog := WLocked));
  }

  lemma RollbackRuns(p: Plan, s: State)
    requires ValidPlan(p) && Due(p, s) && |s.files| == |p.original| && (s.stateFile.Clean? && !s.marker ==> s.files == p.original)
    ensures Run(p, s, RollbackSteps(p, s)) ==
      (if s.marker then s.(watchdog := WDone, directory := false)
       else s.(watchdog := WDone, directory := false, restored := true, live := OldLive, files := p.original))
  {
    hide Run, Times;
    var r := GetsLock(p, s);
    RollbackIs(p, s, r);
    hide RollbackSteps, Due;
    if s.marker {
      KeepsMarked(p, s, r);
    } else {
      if s.stateFile.NetplanWritten? { r := RestoresNew(p, s, r); } else { r := SkipsFiles(p, s, r); }
      EndsRestored(p, s, r, s.(files := p.original, watchdog := WLive(false)));
    }
  }

  lemma RollbackIs(p: Plan, s: State, r: seq<Step>)
    requires r == (if s.watchdog.WStarting? then [W(Read)] else []) + (if s.watchdog.WWaiting? then [] else [W(Poll)]) + [W(Lock)]
    ensures s.marker ==> RollbackSteps(p, s) == r + ([W(Decide)] + [W(Remove)])
    ensures !s.marker && s.stateFile.NetplanWritten? ==>
      RollbackSteps(p, s) == r + [W(Decide)] + Times(W(RestoreFile(true)), |p.original| + 1) + ([W(RestoreLive(true))] + [W(Remove)])
    ensures !s.marker && !s.stateFile.NetplanWritten? ==>
      RollbackSteps(p, s) == r + [W(Decide)] + ([W(RestoreLive(true))] + [W(Remove)])
  {
    hide Times;
  }

  lemma KeepsMarked(p: Plan, s: State, r: seq<Step>)
    requires s.marker && Run(p, s, r) == s.(watchdog := WLocked)
    ensures Run(p, s, r + ([W(Decide)] + [W(Remove)])) == s.(watchdog := WDone, directory := false)
  {
    hide Run, ConfigureStep, ConfirmStep;
    var q := Extend(p, s, r, W(Decide), s.(watchdog := WRemoving));
    q := Extend(p, s, q, W(Remove), s.(watchdog := WDone, directory := false));
    assert q == r + ([W(Decide)] + [W(Remove)]);
  }

  /** No file is new. */
  lemma SkipsFiles(p: Plan, s: State, r: seq<Step>) returns (q: seq<Step>)
    requires !s.marker && s.stateFile.Clean? && s.files == p.original && Run(p, s, r) == s.(watchdog := WLocked)
    ensures q == r + [W(Decide)] && Run(p, s, q) == s.(files := p.original, watchdog := WLive(false))
  {
    hide Run, ConfigureStep, ConfirmStep;
    q := Extend(p, s, r, W(Decide), s.(watchdog := WLive(false)));
  }

  lemma RestoresNew(p: Plan, s: State, r: seq<Step>) returns (q: seq<Step>)
    requires ValidPlan(p) && !s.marker && s.stateFile.NetplanWritten? && |s.files| == |p.original| && Run(p, s, r) == s.(watchdog := WLocked)
    ensures q == r + [W(Decide)] + Times(W(RestoreFile(true)), |p.original| + 1)
    ensures Run(p, s, q) == s.(files := p.original, watchdog := WLive(false))
  {
    hide Run, Times;
    q := Extend(p, s, r, W(Decide), s.(watchdog := WFiles(0)));
    var restores := Times(W(RestoreFile(true)), |p.original| + 1);
    RunJoins(p, s, q, restores);
    RestoresAll(p, s.(watchdog := WFiles(0)));
    q := q + restores;
  }

  lemma EndsRestored(p: Plan, s: State, r: seq<Step>, t: State)
    requires Run(p, s, r) == t && t.watchdog == WLive(false)
    ensures Run(p, s, r + ([W(RestoreLive(true))] + [W(Remove)])) == t.(live := OldLive, restored := true, watchdog := WDone, directory := false)
  {
    hide Run, ConfigureStep, ConfirmStep;
    var u := t.(live := OldLive, restored := true);
    var q := Extend(p, s, r, W(RestoreLive(true)), u.(watchdog := WRemoving));
    q := Extend(p, s, q, W(Remove), u.(watchdog := WDone, directory := false));
    assert q == r + ([W(RestoreLive(true))] + [W(Remove)]);
  }

  /** From every reachable state past the deadline in which the watchdog's turn has come, a watchdog
      all of whose answers are good finishes: it takes everything back exactly if nobody has set the
      marker. */
  lemma RollbackSucceeds(p: Plan, now: int, steps: seq<Step>)
    requires ValidPlan(p) && Due(p, Run(p, Init(p, now), steps))
    ensures
      var s := Run(p, Init(p, now), steps);
      var t := Run(p, Init(p, now), steps + RollbackSteps(p, s));
      && t.watchdog.WDone? && !t.directory && (t.restored <==> !s.marker)
      && (!s.marker ==> t.live.OldLive? && t.files == p.original && !t.confirmed && AllOrNothing(p, t))
      && (s.confirmed ==> t.live.NewLive? && t.files == p.updated && AllOrNothing(p, t))
  {
    hide Run;
    var s := Run(p, Init(p, now), steps);
    EveryRun(p, now, steps);
    hide Exclusive;
    RollbackRuns(p, s);
    RunJoins(p, Init(p, now), steps, RollbackSteps(p, s));
    hide RollbackSteps;
  }

  /** A watchdog that sees the marker before the deadline is through at once. */
  lemma MarkerEndsWatchdog(p: Plan, s: State)
    requires s.watchdog.WPolling? && s.marker && s.now < p.deadline
    ensures Run(p, s, [W(Poll), W(Remove)]) == s.(watchdog := WDone, directory := false)
  {
    hide Run, ConfigureStep, ConfirmStep;
    RunNone(p, s);
    var r := Extend(p, s, [], W(Poll), s.(watchdog := WRemoving));
    r := Extend(p, s, r, W(Remove), s.(watchdog := WDone, directory := false));
    assert r == [W(Poll), W(Remove)];
  }

  // ----- failures

  /** A configure that dies while it changes the live configuration leaves a mixture, and whatever is
      due to take it back does: the watchdog, from the deadline on. */
  lemma CrashIsTakenBack(p: Plan, now: int, steps: seq<Step>, time: nat)
    requires ValidPlan(p) && Run(p, Init(p, now), steps).configure.CLocked?
    ensures
      var s := Run(p, Init(p, now), steps);
      var crashed := steps + [C(Change)] + [C(Crash)] + [Pass(time)];
      var t := Run(p, Init(p, now), crashed);
      && t == s.(live := MixedLive, configure := CFailed, now := s.now + time)
      && (Due(p, t) && !t.marker ==> AllOrNothing(p, Run(p, Init(p, now), crashed + RollbackSteps(p, t))))
  {
    hide Run, RollbackSteps, AllOrNothing, Due;
    var r := Crashes(p, Init(p, now), steps, Run(p, Init(p, now), steps), time);
    var t := Run(p, Init(p, now), r);
    if Due(p, t) && !t.marker { RollbackSucceeds(p, now, r); }
  }

  lemma Crashes(p: Plan, i: State, steps: seq<Step>, s: State, time: nat) returns (r: seq<Step>)
    requires Run(p, i, steps) == s && s.configure.CLocked?
    ensures r == steps + [C(Change)] + [C(Crash)] + [Pass(time)]
    ensures Run(p, i, r) == s.(live := MixedLive, configure := CFailed, now := s.now + time)
  {
    hide Run, Next;
    ChangeStep(p, s);
    r := Extend(p, i, steps, C(Change), s.(live := MixedLive));
    r := Dies(p, i, r, s.(live := MixedLive), time);
  }

  lemma Dies(p: Plan, i: State, steps: seq<Step>, s: State, time: nat) returns (r: seq<Step>)
    requires Run(p, i, steps) == s && s.configure.CLocked?
    ensures r == steps + [C(Crash)] + [Pass(time)] && Run(p, i, r) == s.(configure := CFailed, now := s.now + time)
  {
    hide Run, Next;
    CrashStep(p, s);
    PassStep(p, s.(configure := CFailed), time);
    r := Extend(p, i, steps, C(Crash), s.(configure := CFailed));
    r := Extend(p, i, r, Pass(time), s.(configure := CFailed, now := s.now + time));
  }

  lemma ChangeStep(p: Plan, s: State)
    requires s.configure.CLocked?
    ensures Next(p, s, C(Change)) == s.(live := MixedLive)
  {}

  lemma CrashStep(p: Plan, s: State)
    requires !s.configure.CDone? && !s.configure.CStarting?
    ensures Next(p, s, C(Crash)) == s.(configure := CFailed)
  {}

  lemma PassStep(p: Plan, s: State, time: nat)
    ensures Next(p, s, Pass(time)) == s.(now := s.now + time)
  {}

  /** A confirm that dies frees the lock and leaves the files as far as they were written; in the
      middle of the rewrite it leaves the state file torn. */
  lemma ConfirmDies(p: Plan, s: State)
    requires ConfirmHolds(s)
    ensures Next(p, s, K(Abort)) == s.(confirm := KIdle, damaged := s.damaged || s.confirm.KRecording?)
    ensures s.confirm.KRecording? ==> Next(p, s, K(WriteState(false))) == Next(p, s, K(Abort))
  {}

  /** A confirm gives up, and frees the lock, when the state file cannot be rewritten or the directory
      is gone. */
  lemma ConfirmGivesUp(p: Plan, s: State)
    ensures s.confirm.KCompared? ==> Next(p, s, K(TruncateState(false))) == s.(confirm := KIdle)
    ensures s.confirm.KCompared? && !s.directory ==> Next(p, s, K(TruncateState(true))) == s.(confirm := KIdle)
    ensures s.confirm.KMarking? && !s.directory ==> Next(p, s, K(Mark)) == s.(confirm := KIdle)
  {}

  /** Without a watchdog nothing is begun, and the directory goes; a configure that cannot take back
      what it has done leaves that to the watchdog. */
  lemma ConfigureFails(p: Plan, s: State)
    ensures s.configure.CStarting? ==> Next(p, s, C(Spawn(false))) == s.(configure := CFailed, directory := false)
    ensures s.configure.CRestoring? ==> Next(p, s, C(Restore(false))) == s.(live := MixedLive, configure := CFailed)
    ensures s.configure.CSpawned? && !s.directory ==> Next(p, s, C(OpenLock)) == s.(configure := CFailed)
  {}

  /** A rollback whose commands fail says so and gives up. */
  lemma RollbackFails(p: Plan, s: State)
    ensures s.watchdog.WFiles? ==> Next(p, s, W(RestoreFile(false))) == s.(watchdog := WLive(true), damaged := true)
    ensures s.watchdog.WLive? ==> Next(p, s, W(RestoreLive(false))) == s.(live := MixedLive, watchdog := WError, damaged := true)
    ensures s.watchdog == WLive(true) ==> Next(p, s, W(RestoreLive(true))) == s.(live := OldLive, watchdog := WError)
    ensures s.watchdog.WLocked? && !s.marker && s.stateFile.Torn? ==> Next(p, s, W(Decide)) == s.(watchdog := WError)
  {}

  /** A run that ends so: confirm dies while it rewrites the state file, and the watchdog, which has
      read it before, finds it torn when its turn comes. */
  lemma TornErrorHappens() returns (r: seq<Step>)
    ensures
      var p := Plan([0], [1], 45);
      var s := Run(p, Init(p, 0), r);
      s.watchdog.WError? && s.stateFile.Torn? && s.configure.CDone? && s.live.NewLive? && s.files == p.original && !s.confirmed
  {
    hide Run;
    var p, s := Plan([0], [1], 45), Init(Plan([0], [1], 45), 0);
    ConfigureApplies(p, 0);
    var up := s.(configure := CDone, live := NewLive, watchdog := WPolling);
    r := [C(Spawn(true)), C(OpenLock), C(TakeLock), C(Change), C(Finish(true))];
    r := Extend(p, s, r, W(Read), up);
    r := Extend(p, s, r, K(Enter), up.(confirm := KLocked));
    r := Extend(p, s, r, K(Check(true)), up.(confirm := KChecked));
    r := Extend(p, s, r, K(Compare), up.(confirm := KCompared));
    r := Extend(p, s, r, K(TruncateState(true)), up.(confirm := KRecording, stateFile := Torn));
    var torn := up.(stateFile := Torn, damaged := true);
    r := Extend(p, s, r, K(WriteState(false)), torn);
    r := TornRuns(p, s, r, torn);
  }

  lemma TornRuns(p: Plan, s: State, start: seq<Step>, torn: State) returns (r: seq<Step>)
    requires Run(p, s, start) == torn && torn.watchdog.WPolling? && torn.stateFile.Torn? && torn.now == 0 && p.deadline == 45
    requires Free(torn) && !torn.marker
    ensures Run(p, s, r) == torn.(now := 45, watchdog := WError)
  {
    hide Run, ConfigureStep, ConfirmStep;
    r := Extend(p, s, start, Pass(45), torn.(now := 45));
    r := Extend(p, s, r, W(Poll), torn.(now := 45, watchdog := WWaiting));
    r := Extend(p, s, r, W(Lock), torn.(now := 45, watchdog := WLocked));
    r := Extend(p, s, r, W(Decide), torn.(now := 45, watchdog := WError));
  }

  /** The whole life of a change that is confirmed at `time`: it stays exactly if that was in time. */
  lemma ConfirmedLife(p: Plan, now: int, time: nat)
    requires ValidPlan(p)
    ensures
      var applied := [C(Spawn(true)), C(OpenLock), C(TakeLock), C(Change), C(Finish(true))] + [Pass(time)];
      Run(p, Init(p, now), applied + ConfirmSteps(p)).confirmed <==> now + time < p.deadline - 2
  {
    var apply := [C(Spawn(true)), C(OpenLock), C(TakeLock), C(Change), C(Finish(true))];
    ConfigureApplies(p, now);
    var s := Init(p, now).(configure := CDone, live := NewLive, watchdog := WStarting);
    hide Run, ConfirmSteps;
    var applied := Extend(p, Init(p, now), apply, Pass(time), s.(now := now + time));
    ConfirmSucceedsIffInTime(p, now, applied, []);
  }
}
