/** The confirmed network change: `configure`, `confirm` and the detached watchdog.

    Three processes share a transaction directory with a lock file, a write-ahead state file
    and a `confirmed` marker. A run is any sequence of steps; a step that is not possible in a
    state leaves it unchanged, so quantifying over step sequences quantifies over every
    interleaving, every failure and every passing of time.

    The live interface configuration is old, new, or something in between while commands run;
    netplan files are replaced one at a time. The directory is removed in one step, and the
    token that `confirm` needs exists only once `configure` has returned. */
module NetworkTransaction {

  datatype Live = OldLive | NewLive | MixedLive
  datatype StateFile = Clean | NetplanWritten | Torn

  /** The netplan files of the transaction, before and after; none if it is not persistent. */
  datatype Plan = Plan(original: seq<int>, updated: seq<int>, deadline: int)

  datatype Configure = CStarting | CSpawned | COpened | CLocked | CRestoring | CDone | CFailed
  datatype Confirm = KIdle | KLocked | KChecked | KCompared | KRecording | KWriting(next: nat) | KUndoing(next: nat) | KSaved | KMarking
  datatype Watchdog = WNone | WStarting | WPolling | WWaiting | WLocked | WFiles(next: nat) | WLive(failed: bool)
    | WRemoving | WDone | WError | WDead

  datatype State = State(
    now: int, configure: Configure, confirm: Confirm, watchdog: Watchdog,
    live: Live, files: seq<int>, stateFile: StateFile, directory: bool, marker: bool,
    confirmed: bool,  // the marker was set by confirm
    restored: bool,   // the watchdog restored everything
    late: bool,       // configure took the lock after the watchdog had had its turn
    damaged: bool,    // the state file was left torn or a rollback command failed
    blind: bool)      // the watchdog died of a state file that confirm was just rewriting

  datatype ConfigureAct = Spawn(ok: bool) | OpenLock | TakeLock | Change | Finish(ok: bool) | Restore(ok: bool) | Crash
  datatype WatchdogAct = Read | Poll | Lock | Decide | RestoreFile(ok: bool) | RestoreLive(ok: bool) | Remove
  datatype ConfirmAct = Enter | Check(pass: bool) | Compare | TruncateState(done: bool) | WriteState(ok: bool) | WriteFile(ok: bool)
    | UndoFile(ok: bool) | CheckTime | Mark | Abort

  /** What happens next, and to whom. */
  datatype Step = Pass(time: nat) | C(c: ConfigureAct) | W(w: WatchdogAct) | K(k: ConfirmAct)

  ghost predicate ValidPlan(p: Plan) { |p.original| == |p.updated| }

  function Init(p: Plan, now: int): State {
    State(now, CStarting, KIdle, WNone, OldLive, p.original, Clean, true, false, false, false, false, false, false)
  }

  predicate ConfigureHolds(s: State) { s.configure.CLocked? || s.configure.CRestoring? }
  predicate ConfirmHolds(s: State) { !s.confirm.KIdle? }
  predicate WatchdogHolds(s: State) { s.watchdog.WLocked? || s.watchdog.WFiles? || s.watchdog.WLive? }
  predicate Free(s: State) { !ConfigureHolds(s) && !ConfirmHolds(s) && !WatchdogHolds(s) }

  /** The watchdog gave the lock back for the last time. */
  predicate WatchdogOver(s: State) { s.watchdog.WRemoving? || s.watchdog.WDone? || s.watchdog.WError? || s.watchdog.WDead? }

  /** `confirm` refuses from two seconds before the deadline on. */
  predicate TooLate(p: Plan, s: State) { s.now >= p.deadline - 2 }

  // ----- configure, after its checks and after writing state.json

  function ConfigureStep(p: Plan, s: State, act: ConfigureAct): (t: State)
    ensures t.restored == s.restored && t.confirmed == s.confirmed && t.now == s.now && t.confirm == s.confirm
  {
    match act
    case Spawn(ok) =>
      if !s.configure.CStarting? then s
      else if ok then s.(configure := CSpawned, watchdog := WStarting)
      else s.(configure := CFailed, directory := false)
    case OpenLock => if s.configure.CSpawned? then s.(configure := if s.directory then COpened else CFailed) else s
    case TakeLock => if s.configure.COpened? && Free(s) then s.(configure := CLocked, late := WatchdogOver(s)) else s
    case Change => if s.configure.CLocked? then s.(live := MixedLive) else s
    case Finish(ok) =>
      if !s.configure.CLocked? then s
      else if ok then s.(live := NewLive, configure := CDone)
      else s.(configure := CRestoring)
    case Restore(ok) =>
      if !s.configure.CRestoring? then s
      else if ok then s.(live := OldLive, configure := CFailed, marker := s.marker || s.directory)
      else s.(live := MixedLive, configure := CFailed)
    case Crash => if s.configure.CDone? then s else if s.configure.CStarting? then s else s.(configure := CFailed)
  }

  // ----- rollback, the watchdog

  function WatchdogStep(p: Plan, s: State, act: WatchdogAct): (t: State)
    ensures (s.restored ==> t.restored) && t.confirmed == s.confirmed && t.now == s.now && t.confirm == s.confirm
  {
    match act
    case Read =>
      if !s.watchdog.WStarting? then s
      else if !s.directory || s.stateFile.Torn? then s.(watchdog := WDead, blind := s.confirm.KRecording?)
      else s.(watchdog := WPolling)
    case Poll =>
      if !s.watchdog.WPolling? then s
      else if s.now >= p.deadline then s.(watchdog := WWaiting)
      else if s.marker then s.(watchdog := WRemoving) else s
    case Lock => if s.watchdog.WWaiting? && Free(s) then s.(watchdog := WLocked) else s
    case Decide =>
      if !s.watchdog.WLocked? then s
      else if s.marker then s.(watchdog := WRemoving)
      else
        (match s.stateFile
         case Torn => s.(watchdog := WError)
         case Clean => s.(watchdog := WLive(false))
         case NetplanWritten => s.(watchdog := WFiles(0)))
    case RestoreFile(ok) =>
      if !s.watchdog.WFiles? then s
      else if !ok then s.(watchdog := WLive(true), damaged := true)
      else if s.watchdog.next < |p.original| == |s.files| then
        s.(files := s.files[s.watchdog.next := p.original[s.watchdog.next]], watchdog := WFiles(s.watchdog.next + 1))
      else s.(watchdog := WLive(false))
    case RestoreLive(ok) =>
      if !s.watchdog.WLive? then s
      else if !ok then s.(live := MixedLive, watchdog := WError, damaged := true)
      else if s.watchdog.failed then s.(live := OldLive, watchdog := WError)
      else s.(live := OldLive, watchdog := WRemoving, restored := true)
    case Remove => if s.watchdog.WRemoving? then s.(watchdog := WDone, directory := false) else s
  }

  // ----- confirm, any number of times, under the lock

  function ConfirmStep(p: Plan, s: State, act: ConfirmAct): (t: State)
    ensures t.restored == s.restored && (s.confirmed ==> t.confirmed)
  {
    match act
    case Enter => if s.configure.CDone? && Free(s) then s.(confirm := KLocked) else s
    case Check(pass) =>
      if !s.confirm.KLocked? then s
      else if !s.directory || s.stateFile.Torn? || TooLate(p, s) || !pass then s.(confirm := KIdle)
      else s.(confirm := if p.original == [] then KMarking else KChecked)
    case Compare => if !s.confirm.KChecked? then s else s.(confirm := if s.files == p.original then KCompared else KIdle)
    case TruncateState(done) =>
      if !s.confirm.KCompared? then s
      else if !s.directory || !done then s.(confirm := KIdle)
      else s.(confirm := KRecording, stateFile := Torn)
    case WriteState(ok) =>
      if !s.confirm.KRecording? then s
      else if ok then s.(confirm := KWriting(0), stateFile := NetplanWritten)
      else s.(confirm := KIdle, damaged := true)
    case WriteFile(ok) =>
      if !s.confirm.KWriting? then s
      else if !ok then s.(confirm := KUndoing(0))
      else if s.confirm.next < |p.updated| == |s.files| then
        s.(files := s.files[s.confirm.next := p.updated[s.confirm.next]], confirm := KWriting(s.confirm.next + 1))
      else s.(confirm := KSaved)
    case UndoFile(ok) =>
      if !s.confirm.KUndoing? then s
      else if ok && s.confirm.next < |p.original| == |s.files| then
        s.(files := s.files[s.confirm.next := p.original[s.confirm.next]], confirm := KUndoing(s.confirm.next + 1))
      else s.(confirm := KIdle)
    case CheckTime => if !s.confirm.KSaved? then s else s.(confirm := if TooLate(p, s) then KIdle else KMarking)
    case Mark =>
      if !s.confirm.KMarking? then s
      else if s.directory then s.(confirm := KIdle, marker := true, confirmed := true) else s.(confirm := KIdle)
    case Abort => s.(confirm := KIdle, damaged := s.damaged || s.confirm.KRecording?)
  }

  function Next(p: Plan, s: State, step: Step): State {
    match step
    case Pass(time) => s.(now := s.now + time)
    case C(act) => ConfigureStep(p, s, act)
    case W(act) => WatchdogStep(p, s, act)
    case K(act) => ConfirmStep(p, s, act)
  }

  function Run(p: Plan, s: State, steps: seq<Step>): State {
    if steps == [] then s else Next(p, Run(p, s, steps[..|steps|-1]), steps[|steps|-1])
  }

  // ----- the invariant

  /** One holder of the lock at most; confirm needs the token that configure returned. */
  ghost predicate Exclusive(s: State) {
    && !(ConfigureHolds(s) && ConfirmHolds(s)) && !(ConfigureHolds(s) && WatchdogHolds(s)) && !(ConfirmHolds(s) && WatchdogHolds(s))
    && (ConfirmHolds(s) ==> s.configure.CDone?)
    && (s.configure.CStarting? ==> s.watchdog.WNone?)
    && (s.watchdog.WNone? ==> s.configure.CStarting? || s.configure.CFailed?)
  }

  /** Configure has not had the lock yet. */
  ghost predicate Unlocked(s: State) { s.configure.CStarting? || s.configure.CSpawned? || s.configure.COpened? }

  /** Who may have changed what so far. */
  ghost predicate Untouched(p: Plan, s: State) {
    && |s.files| == |p.original| == |p.updated|
    && (Unlocked(s) || s.watchdog.WNone? ==> !s.marker && (s.live.OldLive? || s.watchdog.WError?))
    && (s.configure.CStarting? ==> s.directory)
    && (!s.configure.CDone? ==> s.stateFile.Clean? && !s.confirmed)
    && (s.stateFile.Clean? && !s.confirmed ==> s.files == p.original)
    && (s.marker && !s.confirmed ==> s.configure.CFailed? && s.live.OldLive?)
    && (s.confirmed ==> s.marker && s.configure.CDone?)
  }

  /** Confirm can do no more than look at the state file and give up. */
  ghost predicate Locked(s: State) { !s.confirmed && (s.confirm.KIdle? || s.confirm.KLocked?) }

  /** Before the deadline the watchdog only waits; after its turn confirm can get nowhere. */
  ghost predicate Timed(p: Plan, s: State) {
    && (s.watchdog.WWaiting? || WatchdogHolds(s) || s.watchdog.WError? || s.restored || s.late ==> s.now >= p.deadline)
    && ((s.watchdog.WRemoving? || s.watchdog.WDone?) && !s.marker ==> s.restored)
    && (s.restored || s.watchdog.WFiles? || s.watchdog.WLive? || s.watchdog.WError? || s.late ==> Locked(s))
    && (s.watchdog.WFiles? || s.watchdog.WLive? ==> !s.marker)
    && (s.directory || s.watchdog.WDone? || s.watchdog.WNone?)
    && (s.restored || s.late ==> WatchdogOver(s)) && (s.restored ==> s.watchdog.WRemoving? || s.watchdog.WDone?)
    && (s.late ==> !Unlocked(s))
    && (s.restored && ConfigureHolds(s) ==> s.late)
    && (s.confirm.KRecording? ==> s.stateFile.Torn?)
    && (s.stateFile.Torn? ==> s.confirm.KIdle? || s.confirm.KLocked? || s.confirm.KRecording?)
    && (s.watchdog.WDead? ==> s.configure.CDone? && (s.damaged || s.blind)) && (s.blind ==> s.watchdog.WDead?)
    && (s.watchdog.WError? || (s.stateFile.Torn? && !s.confirm.KRecording?) || s.watchdog == WLive(true) ==> s.damaged)
  }

  /** The live configuration. */
  ghost predicate LiveOk(s: State) {
    && (s.confirmed ==> s.live.NewLive?)
    && (s.configure.CDone? && !s.restored && !s.watchdog.WError? ==> s.live.NewLive?)
    && (s.configure.CDone? && s.late ==> s.live.NewLive?)
    && (s.restored && !s.late ==> s.live.OldLive?)
  }

  /** The netplan files. */
  ghost predicate FilesOk(p: Plan, s: State) {
    && (s.confirmed ==> s.files == p.updated)
    && (s.confirmed && (s.confirm.KCompared? || s.confirm.KRecording? || s.confirm.KWriting? || s.confirm.KUndoing?) ==> p.updated == p.original)
    && (s.confirm.KCompared? || s.confirm.KRecording? ==> s.files == p.original)
    && (s.confirm.KWriting? || s.confirm.KUndoing? || s.confirm.KSaved? ==> s.stateFile != Clean)
    && (s.confirm.KWriting? ==> Partly(p.updated, p.original, s.confirm.next, s.files))
    && (s.confirm.KSaved? || s.confirm.KMarking? ==> s.files == p.updated)
    && RollbackOk(p, s)
  }

  /** The netplan files while the watchdog rolls back. */
  ghost predicate RollbackOk(p: Plan, s: State) {
    && (s.restored ==> s.files == p.original)
    && (s.watchdog.WFiles? ==> Partly(p.original, s.files, s.watchdog.next, s.files))
    && (s.watchdog == WLive(false) ==> s.files == p.original)
  }

  /** The first `n` files come from `a`, the others from `b`. */
  ghost predicate Partly(a: seq<int>, b: seq<int>, n: nat, files: seq<int>) {
    n <= |files| == |a| == |b| && forall i :: 0 <= i < |files| ==> files[i] == if i < n then a[i] else b[i]
  }

  ghost predicate Inv(p: Plan, s: State) { Exclusive(s) && Untouched(p, s) && Timed(p, s) && LiveOk(s) && FilesOk(p, s) }

  lemma ConfigureKeeps(p: Plan, s: State, act: ConfigureAct)
    requires Inv(p, s)
    ensures Inv(p, ConfigureStep(p, s, act))
  {
    hide Partly;
    match act
    case Spawn(ok) =>
    case OpenLock =>
    case TakeLock =>
    case Change =>
    case Finish(ok) =>
    case Restore(ok) =>
    case Crash =>
  }

  lemma WatchdogKeepsControl(p: Plan, s: State, act: WatchdogAct)
    requires Inv(p, s)
    ensures var t := WatchdogStep(p, s, act); Exclusive(t) && Untouched(p, t)
  {
    hide LiveOk;
  }

  lemma WatchdogKeepsTime(p: Plan, s: State, act: WatchdogAct)
    requires Inv(p, s)
    ensures var t := WatchdogStep(p, s, act); Timed(p, t) && LiveOk(t)
  {
    hide FilesOk;
  }

  lemma WatchdogKeepsFiles(p: Plan, s: State, act: WatchdogAct)
    requires Inv(p, s)
    ensures FilesOk(p, WatchdogStep(p, s, act))
  {
    hide LiveOk;
  }

  lemma ConfirmKeepsControl(p: Plan, s: State, act: ConfirmAct)
    requires Inv(p, s)
    ensures var t := ConfirmStep(p, s, act); Exclusive(t) && Untouched(p, t)
  {
    hide LiveOk, Partly;
    match act
    case Enter =>
    case Check(pass) =>
    case Compare =>
    case TruncateState(done) =>
    case WriteState(ok) =>
    case WriteFile(ok) =>
    case UndoFile(ok) =>
    case CheckTime =>
    case Mark =>
    case Abort =>
  }

  lemma ConfirmKeepsTime(p: Plan, s: State, act: ConfirmAct)
    requires Inv(p, s)
    ensures var t := ConfirmStep(p, s, act); Timed(p, t) && LiveOk(t)
  {
    hide FilesOk;
    match act
    case Enter =>
    case Check(pass) =>
    case Compare =>
    case TruncateState(done) =>
    case WriteState(ok) =>
    case WriteFile(ok) =>
    case UndoFile(ok) =>
    case CheckTime =>
    case Mark =>
    case Abort =>
  }

  lemma PartlyMoves(a: seq<int>, b: seq<int>, files: seq<int>, k: Confirm)
    requires |a| == |b|
    ensures files == b ==> Partly(a, b, 0, files)
    ensures k.KWriting? && Partly(a, b, k.next, files) ==>
      && k.next <= |files| == |a|
      && (if k.next < |a| then Partly(a, b, k.next + 1, files[k.next := a[k.next]]) else files == a)
    ensures files == a && k.KWriting? && k.next < |a| ==> files[k.next := a[k.next]] == files
    ensures files == b && k.KUndoing? && k.next < |b| ==> files[k.next := b[k.next]] == files
  {}

  lemma ConfirmKeepsRollback(p: Plan, s: State, act: ConfirmAct)
    requires Inv(p, s)
    ensures RollbackOk(p, ConfirmStep(p, s, act))
  {
    hide LiveOk, Untouched, Partly;
    assert s.watchdog.WFiles? || s.watchdog == WLive(false) || s.restored ==> s.confirm.KIdle? || s.confirm.KLocked?;
  }

  lemma ConfirmMovesFiles(p: Plan, s: State, act: ConfirmAct)
    requires Inv(p, s) && (act.WriteFile? || act.UndoFile?)
    ensures FilesOk(p, ConfirmStep(p, s, act))
  {
    ConfirmKeepsRollback(p, s, act);
    PartlyMoves(p.updated, p.original, s.files, s.confirm);
    hide LiveOk, Partly, RollbackOk, Timed, Exclusive;
    match act
    case WriteFile(ok) =>
    case UndoFile(ok) =>
  }

  lemma ConfirmKeepsFiles(p: Plan, s: State, act: ConfirmAct)
    requires Inv(p, s)
    ensures FilesOk(p, ConfirmStep(p, s, act))
  {
    if act.WriteFile? || act.UndoFile? {
      hide *;
      ConfirmMovesFiles(p, s, act);
    } else {
      ConfirmKeepsRollback(p, s, act);
      PartlyMoves(p.updated, p.original, s.files, s.confirm);
      hide LiveOk, Partly, RollbackOk, Timed;
      match act
      case Enter =>
      case Check(pass) =>
      case Compare =>
      case TruncateState(done) =>
      case WriteState(ok) =>
      case CheckTime =>
      case Mark =>
      case Abort =>
    }
  }

  lemma PassKeeps(p: Plan, s: State, time: nat)
    requires Inv(p, s)
    ensures Inv(p, s.(now := s.now + time))
  {}

  lemma StepKeeps(p: Plan, s: State, step: Step)
    requires Inv(p, s)
    ensures Inv(p, Next(p, s, step))
  {
    hide Exclusive, Untouched, Timed, LiveOk, FilesOk, ConfigureStep, WatchdogStep, ConfirmStep;
    match step
    case Pass(time) => PassKeeps(p, s, time);
    case C(act) => ConfigureKeeps(p, s, act);
    case W(act) => WatchdogKeepsControl(p, s, act); WatchdogKeepsTime(p, s, act); WatchdogKeepsFiles(p, s, act);
    case K(act) => ConfirmKeepsControl(p, s, act); ConfirmKeepsTime(p, s, act); ConfirmKeepsFiles(p, s, act);
  }

  /** Every interleaving of configure, any number of confirms, the watchdog, crashes and time. */
  lemma {:induction false} EveryRun(p: Plan, now: int, steps: seq<Step>)
    requires ValidPlan(p)
    ensures Inv(p, Run(p, Init(p, now), steps))
  {
    if steps != [] {
      EveryRun(p, now, steps[..|steps|-1]);
      StepKeeps(p, Run(p, Init(p, now), steps[..|steps|-1]), steps[|steps|-1]);
    }
  }

  lemma {:induction false} RunKeepsMarks(p: Plan, now: int, steps: seq<Step>, more: seq<Step>)
    ensures var s, t := Run(p, Init(p, now), steps), Run(p, Init(p, now), steps + more);
      (s.restored ==> t.restored) && (s.confirmed ==> t.confirmed)
  {
    if more == [] {
      assert steps + more == steps;
    } else {
      var front := steps + more[..|more|-1];
      assert (steps + more)[..|steps + more|-1] == front;
      RunKeepsMarks(p, now, steps, more[..|more|-1]);
      hide ConfigureStep, WatchdogStep, ConfirmStep;
    }
  }

  /** Once the watchdog has restored, no confirm ever succeeds; once confirm has set the marker,
      the watchdog never restores. */
  lemma RestoreExcludesConfirm(p: Plan, now: int, steps: seq<Step>, more: seq<Step>)
    requires ValidPlan(p)
    ensures var s, t := Run(p, Init(p, now), steps), Run(p, Init(p, now), steps + more);
      (s.restored ==> !t.confirmed) && (s.confirmed ==> !t.restored)
  {
    RunKeepsMarks(p, now, steps, more);
    EveryRun(p, now, steps + more);
  }

  /** Both the live configuration and all files are new if confirm set the marker, otherwise both old. */
  ghost predicate AllOrNothing(p: Plan, s: State) {
    if s.confirmed then s.live.NewLive? && s.files == p.updated else s.live.OldLive? && s.files == p.original
  }

  /** When configure and the watchdog are through, the change is all or nothing, however files were
      only partly written on the way, provided configure got the lock before the watchdog's turn.
      A watchdog that gives up reports it, or met a torn state file: one that was left torn, or one
      that confirm was just rewriting. */
  lemma {:induction false} InTimeIsAllOrNothing(p: Plan, now: int, steps: seq<Step>)
    requires ValidPlan(p)
    ensures var s := Run(p, Init(p, now), steps);
      && (s.watchdog.WDone? && (s.configure.CDone? || s.configure.CFailed?) && !s.late ==> AllOrNothing(p, s))
      && (s.watchdog.WNone? && s.configure.CFailed? ==> AllOrNothing(p, s))
      && (s.watchdog.WError? ==> s.damaged)
      && (s.watchdog.WDead? ==> s.damaged || s.blind)
  {
    hide Run;
    EveryRun(p, now, steps);
  }

  /** Exactly then: a configure that reports success after the watchdog's turn leaves a new live
      configuration that nobody has confirmed and nobody will take back. */
  lemma {:induction false} AllOrNothingIffInTime(p: Plan, now: int, steps: seq<Step>)
    requires ValidPlan(p)
    ensures var s := Run(p, Init(p, now), steps);
      s.watchdog.WDone? && s.configure.CDone? ==> (AllOrNothing(p, s) <==> !s.late)
  {
    hide Run;
    EveryRun(p, now, steps);
  }

  /** A watchdog that died reading the state file takes nothing back: the new live configuration
      stays, and the change is all or nothing exactly if confirm set the marker. */
  lemma {:induction false} DeadWatchdogIffConfirmed(p: Plan, now: int, steps: seq<Step>)
    requires ValidPlan(p)
    ensures var s := Run(p, Init(p, now), steps);
      s.watchdog.WDead? ==>
        && s.configure.CDone? && s.live.NewLive? && !s.restored
        && (s.confirm.KIdle? ==> (AllOrNothing(p, s) <==> s.confirmed))
  {
    hide Run;
    EveryRun(p, now, steps);
  }

  /** And it stays so: after the deadline no confirm succeeds any more. */
  lemma {:induction false} DeadIsForGood(p: Plan, now: int, steps: seq<Step>, more: seq<Step>)
    requires ValidPlan(p)
    ensures var s, t := Run(p, Init(p, now), steps), Run(p, Init(p, now), steps + more);
      s.watchdog.WDead? && !s.confirmed && s.now >= p.deadline - 2 && s.confirm.KIdle? ==>
        t.watchdog.WDead? && t.live.NewLive? && !t.confirmed && !AllOrNothing(p, t)
  {
    hide Run;
    var s, t := Run(p, Init(p, now), steps), Run(p, Init(p, now), steps + more);
    if s.watchdog.WDead? && !s.confirmed && s.now >= p.deadline - 2 && s.confirm.KIdle? {
      EveryRun(p, now, steps);
      TooLateForGood(p, now, steps, more);
      EveryRun(p, now, steps + more);
      hide Exclusive, Untouched, FilesOk;
    }
  }

  /** Unconfirmed with a dead watchdog, too late for any confirm. */
  ghost predicate Stuck(p: Plan, s: State) {
    && s.watchdog.WDead? && s.configure.CDone? && !s.confirmed && TooLate(p, s)
    && (s.confirm.KIdle? || s.confirm.KLocked?)
  }

  lemma {:induction false} TooLateForGood(p: Plan, now: int, steps: seq<Step>, more: seq<Step>)
    requires Stuck(p, Run(p, Init(p, now), steps))
    ensures Stuck(p, Run(p, Init(p, now), steps + more))
  {
    if more == [] {
      assert steps + more == steps;
    } else {
      var front := steps + more[..|more|-1];
      assert (steps + more)[..|steps + more|-1] == front;
      TooLateForGood(p, now, steps, more[..|more|-1]);
      StaysStuck(p, Run(p, Init(p, now), front), more[|more|-1]);
      hide Next, Stuck;
    }
  }

  lemma StaysStuck(p: Plan, s: State, step: Step)
    requires Stuck(p, s)
    ensures Stuck(p, Next(p, s, step))
  {
    match step
    case Pass(time) =>
    case C(act) =>
    case W(act) =>
    case K(act) => hide ConfirmStep; ConfirmStuck(p, s, act);
  }

  lemma ConfirmStuck(p: Plan, s: State, act: ConfirmAct)
    requires Stuck(p, s)
    ensures Stuck(p, ConfirmStep(p, s, act))
  {
    match act
    case Enter =>
    case Check(pass) =>
    case Abort =>
    case _ => assert ConfirmStep(p, s, act) == s;
  }

  /** What goes with a watchdog that gives up. */
  ghost predicate ErrorOk(p: Plan, s: State) {
    && (s.stateFile.Torn? ==> s.files == p.original)
    && (s.watchdog.WFiles? || s.watchdog.WLive? ==> !s.stateFile.Torn?)
    && (s.watchdog.WError? && s.stateFile.Torn? ==> s.live.NewLive?)
    && (s.watchdog.WError? && !s.stateFile.Torn? && !s.late ==> !s.live.NewLive?)
    && (s.watchdog.WError? && ConfigureHolds(s) ==> s.late)
  }

  lemma ErrorStep(p: Plan, s: State, step: Step)
    requires Inv(p, s) && ErrorOk(p, s)
    ensures ErrorOk(p, Next(p, s, step))
  {
    match step
    case Pass(time) =>
    case C(act) => hide FilesOk;
    case W(act) => ErrorWatchdog(p, s, act); hide *;
    case K(act) => ErrorConfirm(p, s, act); hide *;
  }

  lemma ErrorWatchdog(p: Plan, s: State, act: WatchdogAct)
    requires Inv(p, s) && ErrorOk(p, s)
    ensures ErrorOk(p, WatchdogStep(p, s, act))
  {
    hide FilesOk;
  }

  lemma ErrorConfirm(p: Plan, s: State, act: ConfirmAct)
    requires Inv(p, s) && ErrorOk(p, s)
    ensures ErrorOk(p, ConfirmStep(p, s, act))
  {
    hide LiveOk, Untouched, Partly, RollbackOk;
    match act
    case Enter =>
    case Check(pass) =>
    case Compare =>
    case TruncateState(done) =>
    case WriteState(ok) =>
    case WriteFile(ok) =>
    case UndoFile(ok) =>
    case CheckTime =>
    case Mark =>
    case Abort =>
  }

  lemma {:induction false} EveryError(p: Plan, now: int, steps: seq<Step>)
    requires ValidPlan(p)
    ensures ErrorOk(p, Run(p, Init(p, now), steps))
  {
    if steps != [] {
      hide Inv, ErrorOk, Next;
      EveryError(p, now, steps[..|steps|-1]);
      EveryRun(p, now, steps[..|steps|-1]);
      ErrorStep(p, Run(p, Init(p, now), steps[..|steps|-1]), steps[|steps|-1]);
    }
  }

  /** A watchdog that gives up on a torn state file has restored nothing at all: the live
      configuration is new and the files are old. If it gives up on a command that failed, a
      finished configure has left the live configuration new exactly if it came too late. */
  lemma {:induction false} ErrorLeaves(p: Plan, now: int, steps: seq<Step>)
    requires ValidPlan(p)
    ensures var s := Run(p, Init(p, now), steps);
      s.watchdog.WError? ==>
        && !s.confirmed && !s.restored
        && (s.stateFile.Torn? ==> s.configure.CDone? && s.live.NewLive? && s.files == p.original && !AllOrNothing(p, s))
        && (!s.stateFile.Torn? && s.configure.CDone? ==> (s.live.NewLive? <==> s.late))
        && (s.stateFile.Clean? ==> s.files == p.original)
  {
    hide Run;
    EveryRun(p, now, steps);
    EveryError(p, now, steps);
  }

  /** Nor does anything restore it later. */
  lemma {:induction false} TornIsForGood(p: Plan, now: int, steps: seq<Step>, more: seq<Step>)
    requires ValidPlan(p)
    ensures var s, t := Run(p, Init(p, now), steps), Run(p, Init(p, now), steps + more);
      TornError(s) ==> TornError(t) && t.live.NewLive? && t.files == p.original && !AllOrNothing(p, t)
  {
    var s := Run(p, Init(p, now), steps);
    hide Run;
    if TornError(s) {
      TornStays(p, now, steps, more);
      ErrorLeaves(p, now, steps + more);
    }
  }

  lemma {:induction false} TornStays(p: Plan, now: int, steps: seq<Step>, more: seq<Step>)
    requires ValidPlan(p) && TornError(Run(p, Init(p, now), steps))
    ensures TornError(Run(p, Init(p, now), steps + more))
  {
    if more == [] {
      assert steps + more == steps;
    } else {
      hide Next, Inv, TornError;
      var front := steps + more[..|more|-1];
      assert (steps + more)[..|steps + more|-1] == front;
      TornStays(p, now, steps, more[..|more|-1]);
      EveryRun(p, now, front);
      StaysTorn(p, Run(p, Init(p, now), front), more[|more|-1]);
    }
  }

  ghost predicate TornError(s: State) { s.watchdog.WError? && s.stateFile.Torn? }

  lemma StaysTorn(p: Plan, s: State, step: Step)
    requires Inv(p, s) && TornError(s)
    ensures TornError(Next(p, s, step))
  {
    hide FilesOk, LiveOk, Untouched;
  }

  /** A run that leaves a dead watchdog: a slow one reads the state file while confirm rewrites it, and
      confirm then fails to write the first netplan file and gives up. */
  lemma BlindWatchdogSticks() returns (r: seq<Step>)
    ensures
      var p := Plan([0], [1], 45);
      var s := Run(p, Init(p, 0), r);
      && s.watchdog.WDead? && s.blind && !s.damaged && s.configure.CDone? && s.confirm.KIdle?
      && s.live.NewLive? && s.files == p.original && s.stateFile.NetplanWritten? && !s.confirmed && !s.restored
      && s.now >= p.deadline && !AllOrNothing(p, s)
  {
    hide Run;
    var p, s := Plan([0], [1], 45), Init(Plan([0], [1], 45), 0);
    r := [];
    RunNone(p, s);
    r := Extend(p, s, r, C(Spawn(true)), s.(configure := CSpawned, watchdog := WStarting));
    r := Extend(p, s, r, C(OpenLock), s.(configure := COpened, watchdog := WStarting));
    r := Extend(p, s, r, C(TakeLock), s.(configure := CLocked, watchdog := WStarting));
    var up := s.(configure := CDone, live := NewLive, watchdog := WStarting);
    r := Extend(p, s, r, C(Finish(true)), up);
    r := Extend(p, s, r, K(Enter), up.(confirm := KLocked));
    r := Extend(p, s, r, K(Check(true)), up.(confirm := KChecked));
    r := Extend(p, s, r, K(Compare), up.(confirm := KCompared));
    r := Extend(p, s, r, K(TruncateState(true)), up.(confirm := KRecording, stateFile := Torn));
    var dead := up.(watchdog := WDead, blind := true);
    r := Extend(p, s, r, W(Read), dead.(confirm := KRecording, stateFile := Torn));
    r := Extend(p, s, r, K(WriteState(true)), dead.(confirm := KWriting(0), stateFile := NetplanWritten));
    r := Extend(p, s, r, K(WriteFile(false)), dead.(confirm := KUndoing(0), stateFile := NetplanWritten));
    r := Extend(p, s, r, K(UndoFile(false)), dead.(confirm := KIdle, stateFile := NetplanWritten));
    r := Extend(p, s, r, Pass(45), dead.(confirm := KIdle, stateFile := NetplanWritten, now := 45));
  }

  /** The failing run: configure opens the lock file, stalls past the deadline, and takes the lock
      once the watchdog has restored the old configuration and released it. */
  function LateRun(): seq<Step> {
    [] + [C(Spawn(true))] + [C(OpenLock)] + [W(Read)] + [Pass(45)] + [W(Poll)] + [W(Lock)] + [W(Decide)] + [W(RestoreLive(true))]
    + [C(TakeLock)] + [C(Finish(true))] + [W(Remove)]
  }

  const LATE_PLAN := Plan([], [], 45)

  /** First the watchdog has its whole turn while configure waits for the lock. */
  lemma WatchdogFirst() returns (r: seq<Step>)
    ensures r == [] + [C(Spawn(true))] + [C(OpenLock)] + [W(Read)] + [Pass(45)] + [W(Poll)] + [W(Lock)] + [W(Decide)] + [W(RestoreLive(true))]
    ensures Run(LATE_PLAN, Init(LATE_PLAN, 0), r)
      == Init(LATE_PLAN, 0).(now := 45, configure := COpened, watchdog := WRemoving, restored := true)
  {
    hide Run;
    var p, s := LATE_PLAN, Init(LATE_PLAN, 0);
    r := [];
    RunNone(p, s);
    r := Extend(p, s, r, C(Spawn(true)), s.(configure := CSpawned, watchdog := WStarting));
    r := Extend(p, s, r, C(OpenLock), s.(configure := COpened, watchdog := WStarting));
    r := Extend(p, s, r, W(Read), s.(configure := COpened, watchdog := WPolling));
    r := Extend(p, s, r, Pass(45), s.(now := 45, configure := COpened, watchdog := WPolling));
    r := Extend(p, s, r, W(Poll), s.(now := 45, configure := COpened, watchdog := WWaiting));
    r := Extend(p, s, r, W(Lock), s.(now := 45, configure := COpened, watchdog := WLocked));
    r := Extend(p, s, r, W(Decide), s.(now := 45, configure := COpened, watchdog := WLive(false)));
    r := Extend(p, s, r, W(RestoreLive(true)), s.(now := 45, configure := COpened, watchdog := WRemoving, restored := true));
  }

  lemma LateConfigureSticks()
    ensures var s := Run(LATE_PLAN, Init(LATE_PLAN, 0), LateRun());
      s.watchdog.WDone? && s.configure.CDone? && s.late && s.live.NewLive? && !s.confirmed && !AllOrNothing(LATE_PLAN, s)
  {
    hide Run;
    var p, s := LATE_PLAN, Init(LATE_PLAN, 0);
    var r := WatchdogFirst();
    var t := s.(now := 45, watchdog := WRemoving, restored := true, late := true);
    r := Extend(p, s, r, C(TakeLock), t.(configure := CLocked));
    r := Extend(p, s, r, C(Finish(true)), t.(configure := CDone, live := NewLive));
    r := Extend(p, s, r, W(Remove), t.(configure := CDone, live := NewLive, watchdog := WDone, directory := false));
  }

  lemma RunNone(p: Plan, s: State)
    ensures Run(p, s, []) == s
  {}

  lemma Extend(p: Plan, s: State, r: seq<Step>, step: Step, t: State) returns (longer: seq<Step>)
    requires Next(p, Run(p, s, r), step) == t
    ensures longer == r + [step] && Run(p, s, longer) == t
  {
    longer := r + [step];
    assert longer[..|r|] == r;
  }
}
