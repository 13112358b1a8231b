/**
 The writers of the account store as separate processes: each takes the config lock before the state
 lock, or the state lock alone, and reads and writes the two files one at a time.
 */
module StoreLocks {
  import opened AccountRoster
  import opened AccountStore
  import opened RosterRuns

  type Pid = nat

  datatype Phase =
    | Idle
    | WantsConfig(op: Op)
    | WantsState(op: Op)
    | Locked(op: Op)
    | HasConfig(op: Op, config: Config)
    | HasState(op: Op, state: State)
    | HasBoth(op: Op, files: Files)
    | ConfigWritten(op: Op, pending: State)
    | Written(op: Op)
    | StateReleased(op: Op)

  datatype World = World(files: Files, phases: map<Pid, Phase>)

  /** A save of runtime state alone takes only the state lock. */
  predicate TakesConfigLock(op: Op) {
    !op.SaveState?
  }

  predicate HoldsState(phase: Phase) {
    phase.Locked? || phase.HasConfig? || phase.HasState? || phase.HasBoth? || phase.ConfigWritten? || phase.Written?
  }

  predicate HoldsConfig(phase: Phase) {
    !phase.Idle? && TakesConfigLock(phase.op) && (phase.WantsState? || HoldsState(phase) || phase.StateReleased?)
  }

  ghost predicate Step(w: World, p: Pid, next: World) {
    && p in w.phases
    && next == World(next.files, w.phases[p := (if p in next.phases then next.phases[p] else Idle)])
    && var after := next.phases[p];
       match w.phases[p]
       case Idle => next.files == w.files && (after.WantsConfig? || after.WantsState?)
                    && (after.WantsConfig? <==> TakesConfigLock(after.op))
       case WantsConfig(op) => next.files == w.files && after == WantsState(op) && ConfigLockFree(w)
       case WantsState(op) => next.files == w.files && after == Locked(op) && StateLockFree(w)
       case Locked(op) =>
         && next.files == w.files
         && after == if TakesConfigLock(op) then HasConfig(op, w.files.config) else HasState(op, w.files.state)
       case HasConfig(op, config) => next.files == w.files && after == HasBoth(op, Files(config, w.files.state))
       case HasState(op, state) => next.files == w.files && after == HasBoth(op, Files(w.files.config, state))
       case HasBoth(op, files) =>
         && Allowed(files, op) && WritesProperIds(files, op)
         && if TakesConfigLock(op)
            then next.files == Files(Applied(files, op).config, w.files.state)
                 && after == ConfigWritten(op, Applied(files, op).state)
            else next.files == Files(w.files.config, Applied(files, op).state) && after == Phase.Written(op)
       case ConfigWritten(op, pending) =>
         next.files == Files(w.files.config, pending) && after == Phase.Written(op)
       case Written(op) => next.files == w.files && after == if TakesConfigLock(op) then StateReleased(op) else Idle
       case StateReleased(_) => next.files == w.files && after == Idle
  }

  ghost predicate ConfigLockFree(w: World) {
    forall p :: p in w.phases ==> !HoldsConfig(w.phases[p])
  }

  ghost predicate StateLockFree(w: World) {
    forall p :: p in w.phases ==> !HoldsState(w.phases[p])
  }

  ghost predicate Run(trace: seq<World>, steps: seq<Pid>) {
    && |trace| == |steps| + 1
    && forall i :: 0 <= i < |steps| ==> Step(trace[i], steps[i], trace[i + 1])
  }

  ghost predicate Starts(w: World) {
    StateOnRoster(w.files) && forall p :: p in w.phases ==> w.phases[p].Idle?
  }

  // ---------------------------------------------------------------------
  // The invariant
  // ---------------------------------------------------------------------

  /** What a process has read is what the files hold, and what it is about to write fits the roster. */
  ghost predicate PhaseInv(files: Files, phase: Phase) {
    match phase
    case WantsConfig(op) => TakesConfigLock(op)
    case HasConfig(op, config) => TakesConfigLock(op) && config == files.config
    case HasState(op, state) => !TakesConfigLock(op) && state == files.state
    case HasBoth(op, read) => read == files
    case ConfigWritten(op, pending) => TakesConfigLock(op) && StateOnRoster(Files(files.config, pending))
    case StateReleased(op) => TakesConfigLock(op)
    case _ => true
  }

  ghost predicate Midway(w: World) {
    exists p :: p in w.phases && w.phases[p].ConfigWritten?
  }

  ghost predicate Exclusive(w: World) {
    && (forall p, q :: p in w.phases && q in w.phases && HoldsState(w.phases[p]) && HoldsState(w.phases[q]) ==> p == q)
    && forall p, q ::
         p in w.phases && q in w.phases && HoldsConfig(w.phases[p]) && HoldsConfig(w.phases[q]) ==> p == q
  }

  ghost predicate Inv(w: World) {
    && Exclusive(w)
    && (forall p :: p in w.phases ==> PhaseInv(w.files, w.phases[p]))
    && (Midway(w) || StateOnRoster(w.files))
  }

  lemma StepKeepsExclusive(w: World, p: Pid, next: World)
    requires Exclusive(w) && Step(w, p, next)
    ensures Exclusive(next)
  {
    hide Applied;
    hide WritesProperIds;
    hide Allowed;
  }

  /** What a process has read stays true: the others cannot write while it holds the lock. */
  lemma OthersKeepReading(w: World, p: Pid, next: World, q: Pid)
    requires Inv(w) && Step(w, p, next) && q in w.phases && q != p
    ensures PhaseInv(next.files, w.phases[q])
  {
    hide Applied;
    hide WritesProperIds;
    hide Allowed;
    hide StateOnRoster;
    assert PhaseInv(w.files, w.phases[q]) && PhaseInv(w.files, w.phases[p]);
    if HoldsState(w.phases[q]) {
      assert !HoldsState(w.phases[p]);
    }
  }

  lemma MoverKeepsPhase(w: World, p: Pid, next: World)
    requires Inv(w) && Step(w, p, next)
    ensures PhaseInv(next.files, next.phases[p])
    ensures Midway(next) || StateOnRoster(next.files)
  {
    assert PhaseInv(w.files, w.phases[p]);
    match w.phases[p]
    case HasBoth(op, files) =>
      NotMidway(w, p);
      StepKeepsStateOnRoster(files, op);
      assert TakesConfigLock(op) ==> next.phases[p].ConfigWritten?;
    case ConfigWritten(op, pending) =>
    case _ => SamePending(w, p, next);
  }

  lemma NotMidway(w: World, p: Pid)
    requires Inv(w) && p in w.phases && HoldsState(w.phases[p]) && !w.phases[p].ConfigWritten?
    ensures !Midway(w) && StateOnRoster(w.files)
  {
    hide StateOnRoster;
  }

  lemma SamePending(w: World, p: Pid, next: World)
    requires Inv(w) && Step(w, p, next) && !w.phases[p].HasBoth? && !w.phases[p].ConfigWritten?
    ensures Midway(next) || StateOnRoster(next.files)
  {
    hide StateOnRoster;
    hide Applied;
    hide WritesProperIds;
    if Midway(w) {
      var q :| q in w.phases && w.phases[q].ConfigWritten?;
      assert next.phases[q].ConfigWritten?;
    }
  }

  lemma StepKeepsInv(w: World, p: Pid, next: World)
    requires Inv(w) && Step(w, p, next)
    ensures Inv(next)
  {
    StepKeepsExclusive(w, p, next);
    MoverKeepsPhase(w, p, next);
    hide Exclusive;
    hide PhaseInv;
    hide Applied;
    forall q | q in next.phases ensures PhaseInv(next.files, next.phases[q]) {
      if q != p { OthersKeepReading(w, p, next, q); }
    }
  }

  lemma {:induction false} RunKeepsInv(trace: seq<World>, steps: seq<Pid>, i: nat)
    requires Run(trace, steps) && Starts(trace[0]) && i < |trace|
    ensures Inv(trace[i])
    decreases i
  {
    hide Step;
    hide PhaseInv;
    if i == 0 {
      StartHasInv(trace[0]);
    } else {
      RunKeepsInv(trace, steps, i - 1);
      hide Inv;
      StepKeepsInv(trace[i - 1], steps[i - 1], trace[i]);
    }
  }

  lemma StartHasInv(w: World)
    requires Starts(w)
    ensures Inv(w)
  {
  }

  // ---------------------------------------------------------------------
  // Main results
  // ---------------------------------------------------------------------

  /** Whenever no process holds the state lock, every account with runtime state is on the roster. */
  lemma StateIsOnRoster(trace: seq<World>, steps: seq<Pid>, i: nat)
    requires Run(trace, steps) && Starts(trace[0]) && i < |trace| && StateLockFree(trace[i])
    ensures StateOnRoster(trace[i].files)
  {
    RunKeepsInv(trace, steps, i);
  }

  /** The files as the other processes may see them once the state lock is free. */
  ghost function Settled(w: World): Files {
    if Midway(w) then
      var p :| p in w.phases && w.phases[p].ConfigWritten?;
      Files(w.files.config, w.phases[p].pending)
    else w.files
  }

  lemma SettledIs(w: World, p: Pid)
    requires Inv(w) && p in w.phases && HoldsState(w.phases[p])
    ensures Settled(w) == if w.phases[p].ConfigWritten? then Files(w.files.config, w.phases[p].pending) else w.files
  {
  }

  /** Step by step, the processes do what whole operations do one after the other. */
  lemma StepRefines(w: World, p: Pid, next: World)
    requires Inv(w) && Step(w, p, next)
    ensures if w.phases[p].HasBoth?
            then Allowed(Settled(w), w.phases[p].op) && Settled(next) == Applied(Settled(w), w.phases[p].op)
            else Settled(next) == Settled(w)
  {
    hide StateOnRoster;
    hide WritesProperIds;
    StepKeepsInv(w, p, next);
    assert PhaseInv(w.files, w.phases[p]);
    if HoldsState(w.phases[p]) && HoldsState(next.phases[p]) {
      SettledIs(w, p);
      SettledIs(next, p);
      SaveStateKeepsConfig(w.files, w.phases[p].op);
    } else {
      SettledSame(w, p, next);
    }
  }

  lemma SaveStateKeepsConfig(files: Files, op: Op)
    ensures op.SaveState? ==> Allowed(files, op) && Applied(files, op).config == files.config
  {
  }

  lemma SettledSame(w: World, p: Pid, next: World)
    requires Inv(w) && Inv(next) && Step(w, p, next)
    requires !HoldsState(w.phases[p]) || !HoldsState(next.phases[p])
    ensures Settled(next) == Settled(w)
  {
    hide StateOnRoster;
    hide Applied;
    if Midway(w) {
      var q :| q in w.phases && w.phases[q].ConfigWritten?;
      assert q != p && next.phases[q] == w.phases[q];
      SettledIs(w, q);
      SettledIs(next, q);
    } else {
      assert !Midway(next);
    }
  }

  /** Every interleaving of the processes leaves the files as some sequence of whole operations does. */
  lemma {:induction false} RunRefines(trace: seq<World>, steps: seq<Pid>, i: nat)
    returns (files: seq<Files>, ops: seq<Op>)
    requires Run(trace, steps) && Starts(trace[0]) && i < |trace|
    ensures RosterRuns.Run(files, ops)
    ensures files[0] == trace[0].files && files[|files| - 1] == Settled(trace[i])
    decreases i
  {
    hide Step;
    hide Inv;
    hide Applied;
    if i == 0 {
      StartIsSettled(trace[0]);
      return [trace[0].files], [];
    }
    files, ops := RunRefines(trace, steps, i - 1);
    RunKeepsInv(trace, steps, i - 1);
    var p := steps[i - 1];
    StepRefines(trace[i - 1], p, trace[i]);
    StepMovesIt(trace[i - 1], p, trace[i]);
    hide Settled;
    if trace[i - 1].phases[p].HasBoth? {
      files, ops := files + [Settled(trace[i])], ops + [trace[i - 1].phases[p].op];
    }
  }

  lemma StartIsSettled(w: World)
    requires Starts(w)
    ensures Settled(w) == w.files
  {
  }

  lemma StepMovesIt(w: World, p: Pid, next: World)
    requires Step(w, p, next)
    ensures p in w.phases
  {
  }

  /** The process waits for a lock the other holds. */
  ghost predicate WaitsFor(w: World, p: Pid, q: Pid) {
    && p in w.phases && q in w.phases
    && ((w.phases[p].WantsConfig? && HoldsConfig(w.phases[q])) || (w.phases[p].WantsState? && HoldsState(w.phases[q])))
  }

  ghost predicate WaitingChain(w: World, chain: seq<Pid>) {
    forall i, j :: 0 <= i < |chain| && j == i + 1 && j < |chain| ==> WaitsFor(w, chain[i], chain[j])
  }

  /** Waiting never goes in a circle: no chain of waiting processes has more than three. */
  lemma NoCyclicWait(w: World, chain: seq<Pid>)
    requires WaitingChain(w, chain)
    ensures |chain| <= 3
  {
    assert |chain| > 1 ==> WaitsFor(w, chain[0], chain[1]);
    assert |chain| > 2 ==> WaitsFor(w, chain[1], chain[2]);
    assert |chain| > 3 ==> WaitsFor(w, chain[2], chain[3]);
  }

  /** While a process wants something, one of those that do waits for nobody. */
  lemma SomeoneCanMove(w: World, p: Pid) returns (q: Pid)
    requires p in w.phases && !w.phases[p].Idle?
    ensures q in w.phases && !w.phases[q].Idle? && forall r :: !WaitsFor(w, q, r)
  {
    q := p;
    if r :| WaitsFor(w, q, r) { q := r; }
    if r :| WaitsFor(w, q, r) { q := r; }
  }
}
