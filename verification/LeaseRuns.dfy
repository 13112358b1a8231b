/**
 Every run of a lease, cut where its methods wait: acquiring and disposing of registries, the end of
 tracking, and the clears asked for by probes.
 */
module LeaseRuns {
  import opened Options
  import opened RecoveryLatch
  import opened LimitsLease
  import Recovery = RecoveryRuns

  /** Where the one call of `acquire` stands. */
  datatype Acquiring =
    | NotAcquiring
    | AwaitingRelease(given: Option<RegistryId>)
    | Attempting
    | Arrived(id: RegistryId)

  /** An attempt the lease no longer waits for. */
  datatype Late = NoLate | LatePending | LateArrived(id: RegistryId)

  /** A clear that was asked for, with the probe it rests on and what the registry showed then. */
  datatype Asked = Asked(clear: Clear, probe: Probe, snapshot: Namespace, at: int)

  /** `live` are the registries acquired and not yet disposed of; `issued` counts all there were. */
  datatype World = World(
    lease: Lease,
    recovery: Recovery.World,
    acquiring: Acquiring,
    late: Late,
    live: set<RegistryId>,
    issued: nat,
    probes: set<Probe>,
    clears: seq<Asked>)

  datatype Action =
    | Tick(to: int)
    | ReadStore(stored: View)
    | StopTracking
    | AdoptRead(view: Registry)
    | Ready
    | BeginAttempt(deadlinePassed: bool)
    | AttemptFails(retry: bool, conflict: bool)
    | AttemptArrives
    | TimeOut
    | Install(timedOut: bool, view: Registry)
    | LateArrives
    | LateDisposed
    | Disposed
    | Observe(account: AccountKey, baseRevision: int, view: Registry, evidence: Option<RecoveryEvidence>)
    | AfterProbe(probe: Probe, success: bool, parsedLimit: bool, view: Registry)
    | Release(view: Registry)

  // ---------------------------------------------------------------------
  // Steps
  // ---------------------------------------------------------------------

  /** The lease looks at its registry and may adopt its last read; the latch changes as the lease's does. */
  ghost predicate Reads(lease: Lease, recovery: Recovery.World, view: Registry, nextLease: Lease,
                        nextRecovery: Recovery.World)
  {
    && AdoptsRead(lease, view, nextLease)
    && var current := Current(lease, view);
       if MayAdopt(current, view)
       then Recovery.Step(recovery, Recovery.Action.Adopt(current.latestRead.value, view.snapshot), nextRecovery)
            && nextRecovery.latch == nextLease.latch
       else nextRecovery == recovery
  }

  ghost predicate ObserveStep(w: World, account: AccountKey, baseRevision: int, view: Registry,
                              evidence: Option<RecoveryEvidence>, next: World)
  {
    && Reads(w.lease, w.recovery, view, next.lease, next.recovery)
    && BestEvidence(next.lease.latch, account, w.recovery.clock, evidence)
    && next == w.(lease := next.lease, recovery := next.recovery,
                  probes := if next.lease.registry.None? then w.probes
                            else w.probes + {Probe(account, baseRevision, next.lease.registry.value, evidence)})
  }

  /** The probe's evidence is tried after the read: `adopted` and `read` are the lease and latch then. */
  ghost predicate ClearStep(w: World, probe: Probe, view: Registry, adopted: Lease, read: Recovery.World, next: World)
    requires probe.evidence.Some?
  {
    var evidence := probe.evidence.value;
    && Reads(w.lease, w.recovery, view, adopted, read)
    && if Live(view.snapshot, probe.account, w.recovery.clock)
       then next == w.(lease := adopted, recovery := read)
       else
         && Recovery.Step(read, Recovery.Action.Consume(evidence), next.recovery)
         && next == w.(lease := adopted.(latch := Consumed(adopted.latch, evidence)),
                       recovery := next.recovery,
                       clears := if Spends(adopted.latch, evidence)
                                 then w.clears + [Asked(Clear(probe.account, probe.baseRevision, Id(evidence.evidence),
                                                                probe.registry),
                                                          probe, view.snapshot, w.recovery.clock)]
                                 else w.clears)
  }

  ghost predicate ProbeStep(w: World, probe: Probe, success: bool, parsedLimit: bool, view: Registry, next: World) {
    && probe in w.probes
    && if probe.evidence.None? || !success || parsedLimit then next == w
       else if Current(w.lease, view).registry != Some(probe.registry) then next == w.(lease := Current(w.lease, view))
       else exists adopted, read :: ClearStep(w, probe, view, adopted, read, next)
  }

  ghost predicate Step(w: World, action: Action, next: World) {
    match action
    case Tick(to) =>
      Recovery.Step(w.recovery, Recovery.Action.Tick(to), next.recovery) && next == w.(recovery := next.recovery)
    case ReadStore(stored) =>
      && Recovery.Step(w.recovery, Recovery.Action.Capture(stored), next.recovery)
      && next == w.(recovery := next.recovery,
                    lease := w.lease.(latch := next.recovery.latch,
                                      latestRead := Some(RecoveryRead(next.recovery.latch.issued, stored,
                                                                      w.recovery.clock))))
    case StopTracking => next == w.(lease := Stopped(w.lease))
    case AdoptRead(view) =>
      && Reads(w.lease, w.recovery, view, next.lease, next.recovery)
      && next == w.(lease := next.lease, recovery := next.recovery)
    case Ready =>
      && !w.lease.fallback && w.lease.registry.None? && w.acquiring.NotAcquiring?
      && next == w.(acquiring := AwaitingRelease(w.lease.releasing))
    case BeginAttempt(deadlinePassed) =>
      && w.acquiring.AwaitingRelease? && (w.acquiring.given.Some? ==> w.acquiring.given.value !in w.live)
      && next == if w.lease.fallback then w.(acquiring := NotAcquiring)
                 else if deadlinePassed then w.(acquiring := NotAcquiring, lease := Stopped(w.lease))
                 else w.(acquiring := Attempting)
    case AttemptFails(retry, conflict) =>
      && w.acquiring.Attempting?
      && next == if conflict then w.(acquiring := NotAcquiring, lease := Stopped(w.lease))
                 else if retry && !w.lease.fallback then w
                 else w.(acquiring := NotAcquiring)
    case AttemptArrives =>
      && w.acquiring.Attempting?
      && next == w.(acquiring := Arrived(w.issued), live := w.live + {w.issued}, issued := w.issued + 1)
    case TimeOut =>
      && w.acquiring.Attempting?
      && next == w.(acquiring := NotAcquiring, late := LatePending, lease := Stopped(w.lease))
    case Install(timedOut, view) =>
      && w.acquiring.Arrived?
      && var installed := Installed(w.lease, w.acquiring.id, timedOut, view);
         if timedOut || w.lease.fallback
         then next == w.(acquiring := NotAcquiring, late := LateArrived(w.acquiring.id), lease := installed)
         else
           && Reads(installed, w.recovery, view, next.lease, next.recovery)
           && next == w.(acquiring := NotAcquiring, lease := next.lease, recovery := next.recovery)
    case LateArrives =>
      && w.late.LatePending?
      && next == w.(late := LateArrived(w.issued), live := w.live + {w.issued}, issued := w.issued + 1)
    case LateDisposed => w.late.LateArrived? && next == w.(late := NoLate, live := w.live - {w.late.id})
    case Disposed =>
      w.lease.releasing.Some? && next == w.(live := w.live - {w.lease.releasing.value})
    case Observe(account, baseRevision, view, evidence) => ObserveStep(w, account, baseRevision, view, evidence, next)
    case AfterProbe(probe, success, parsedLimit, view) => ProbeStep(w, probe, success, parsedLimit, view, next)
    case Release(view) => w.acquiring.NotAcquiring? && next == w.(lease := Released(w.lease, view))
  }

  ghost predicate Run(trace: seq<World>, actions: seq<Action>) {
    && |trace| == |actions| + 1
    && forall i :: 0 <= i < |actions| ==> Step(trace[i], actions[i], trace[i + 1])
  }

  ghost predicate Starts(w: World) {
    && Recovery.Starts(w.recovery)
    && w.lease == Lease(None, false, None, None, EMPTY_LATCH)
    && w.acquiring.NotAcquiring? && w.late.NoLate? && w.live == {} && w.probes == {} && w.clears == []
  }

  // ---------------------------------------------------------------------
  // Registries
  // ---------------------------------------------------------------------

  predicate Before(id: Option<RegistryId>, issued: nat) {
    id.Some? ==> id.value < issued
  }

  /** The registry in use and the one being released are the lease's; an arrived one belongs to its attempt. */
  ghost predicate RegistryInv(w: World) {
    && Before(w.lease.registry, w.issued) && Before(w.lease.releasing, w.issued)
    && (w.lease.fallback ==> w.lease.registry.None?)
    && (!w.late.NoLate? ==> w.lease.fallback && w.acquiring.NotAcquiring?)
    && (!w.acquiring.NotAcquiring? ==> w.lease.registry.None?)
    && (w.acquiring.AwaitingRelease? ==> w.acquiring.given == w.lease.releasing)
    && (w.acquiring.Arrived? ==> w.acquiring.id < w.issued && w.lease.releasing != Some(w.acquiring.id))
    && (w.late.LateArrived? ==> w.late.id < w.issued && w.lease.releasing != Some(w.late.id))
    && LiveInv(w)
  }

  /** What may still be undisposed. */
  ghost predicate LiveInv(w: World) {
    forall id :: id in w.live ==>
      if w.lease.registry.Some? then id == w.lease.registry.value
      else if w.acquiring.Arrived? then id == w.acquiring.id
      else if w.late.LateArrived? then id == w.late.id
      else !w.acquiring.Attempting? && !w.late.LatePending? && w.lease.releasing == Some(id)
  }

  lemma LookingKeeps(lease: Lease, view: Registry)
    ensures var next := Current(lease, view);
            next == lease || (lease.registry.Some? && next == Stopped(lease))
  {
  }

  lemma ReadingKeeps(lease: Lease, recovery: Recovery.World, view: Registry, nextLease: Lease, next: Recovery.World)
    requires Reads(lease, recovery, view, nextLease, next)
    ensures nextLease.(latch := lease.latch) == Current(lease, view)
  {
    hide Adopts;
    hide Adoptable;
    hide Recovery.Step;
  }

  /** Giving up the registry in use keeps track of what is undisposed. */
  lemma StoppingKeeps(w: World)
    requires RegistryInv(w)
    ensures RegistryInv(w.(lease := Stopped(w.lease)))
  {
  }

  lemma RegistryStep(w: World, action: Action, next: World)
    requires RegistryInv(w) && Step(w, action, next)
    ensures RegistryInv(next)
    ensures w.lease.fallback ==> next.lease.fallback
  {
    hide Reads;
    hide Recovery.Step;
    match action
    case StopTracking => StoppingKeeps(w);
    case AdoptRead(view) => ReadingStep(w, view, next);
    case Observe(_, _, view, _) => ReadingStep(w, view, next);
    case AfterProbe(probe, success, parsedLimit, view) => ProbingStep(w, probe, success, parsedLimit, view, next);
    case Install(timedOut, view) => InstallStep(w, timedOut, view, next);
    case _ =>
  }

  lemma ReadingStep(w: World, view: Registry, next: World)
    requires RegistryInv(w) && Reads(w.lease, w.recovery, view, next.lease, next.recovery)
    requires next == w.(lease := next.lease, recovery := next.recovery, probes := next.probes, clears := next.clears)
    ensures RegistryInv(next) && (w.lease.fallback ==> next.lease.fallback)
  {
    hide Reads;
    ReadingKeeps(w.lease, w.recovery, view, next.lease, next.recovery);
    LookingKeeps(w.lease, view);
    StoppingKeeps(w);
  }

  lemma ProbingStep(w: World, probe: Probe, success: bool, parsedLimit: bool, view: Registry, next: World)
    requires RegistryInv(w) && ProbeStep(w, probe, success, parsedLimit, view, next)
    ensures RegistryInv(next) && (w.lease.fallback ==> next.lease.fallback)
  {
    hide Reads;
    hide Recovery.Step;
    hide Consumed;
    LookingKeeps(w.lease, view);
    StoppingKeeps(w);
    if probe.evidence.Some? && success && !parsedLimit && Current(w.lease, view).registry == Some(probe.registry) {
      var adopted, read :| ClearStep(w, probe, view, adopted, read, next);
      ReadingStep(w, view, w.(lease := adopted, recovery := read));
    }
  }

  lemma InstallStep(w: World, timedOut: bool, view: Registry, next: World)
    requires RegistryInv(w) && Step(w, Action.Install(timedOut, view), next)
    ensures RegistryInv(next) && (w.lease.fallback ==> next.lease.fallback)
  {
    hide Reads;
    hide Recovery.Step;
    if timedOut || w.lease.fallback {
      StoppingKeeps(w);
    } else {
      var taken := w.lease.(registry := Some(w.acquiring.id));
      var installed := Installed(w.lease, w.acquiring.id, timedOut, view);
      var mid := w.(acquiring := NotAcquiring, lease := taken);
      assert RegistryInv(mid);
      StoppingKeeps(mid);
      ReadingStep(mid.(lease := installed), view, next);
    }
  }

  // ---------------------------------------------------------------------
  // Clears
  // ---------------------------------------------------------------------

  /** A clear names the account its probe was for, whose evidence it used, and no mark of it was running. */
  ghost predicate Warranted(w: World, c: Asked) {
    && c.probe in w.probes
    && c.clear.account == c.probe.account && c.clear.registry == c.probe.registry
    && c.probe.evidence.Some? && c.clear.evidence == Id(c.probe.evidence.value.evidence)
    && c.clear.evidence.account == c.clear.account
    && !Live(c.snapshot, c.clear.account, c.at)
  }

  ghost predicate ClearInv(w: World) {
    && w.lease.latch == w.recovery.latch
    && (w.lease.latestRead.Some? ==> w.lease.latestRead.value in w.recovery.captured)
    && (forall probe :: probe in w.probes && probe.evidence.Some? ==>
          probe.evidence.value.evidence.account == probe.account)
    && (forall i :: 0 <= i < |w.clears| ==> Warranted(w, w.clears[i]))
    && |w.clears| == |w.recovery.uses|
    && (forall i :: 0 <= i < |w.clears| ==> w.clears[i].clear.evidence == w.recovery.uses[i].id)
  }

  /** The latch of a run of the lease goes through a run of the latch. */
  ghost predicate RecoverySteps(w: Recovery.World, next: Recovery.World) {
    next == w || exists action :: Recovery.Step(w, action, next)
  }

  lemma ReadingSteps(lease: Lease, recovery: Recovery.World, view: Registry, nextLease: Lease, next: Recovery.World)
    requires lease.latch == recovery.latch && Reads(lease, recovery, view, nextLease, next)
    ensures RecoverySteps(recovery, next) && nextLease.latch == next.latch
    ensures next.uses == recovery.uses && next.captured == recovery.captured && next.clock == recovery.clock
    ensures nextLease.latestRead == lease.latestRead || nextLease.latestRead.None?
    ensures Recovery.Inv(recovery) ==> Recovery.Inv(next)
  {
    hide Adopts;
    hide Recovery.Inv;
    var current := Current(lease, view);
    if MayAdopt(current, view) {
      var action := Recovery.Action.Adopt(current.latestRead.value, view.snapshot);
      assert Recovery.Step(recovery, action, next);
      if Recovery.Inv(recovery) { Recovery.StepKeepsInv(recovery, action, next); }
    }
  }

  lemma WarrantStays(w: World, next: World, c: Asked)
    requires Warranted(w, c) && w.probes <= next.probes
    ensures Warranted(next, c)
  {
    hide Live;
  }

  lemma ClearsStay(w: World, next: World)
    requires ClearInv(w) && next.clears == w.clears && w.probes <= next.probes
    requires next.recovery.uses == w.recovery.uses && w.recovery.captured <= next.recovery.captured
    requires next.lease.latch == next.recovery.latch
    requires next.lease.latestRead == w.lease.latestRead || next.lease.latestRead.None?
             || next.lease.latestRead.value in next.recovery.captured
    requires forall probe :: probe in next.probes - w.probes && probe.evidence.Some? ==>
               probe.evidence.value.evidence.account == probe.account
    ensures ClearInv(next)
  {
    hide Warranted;
    forall i | 0 <= i < |next.clears| ensures Warranted(next, next.clears[i]) { WarrantStays(w, next, w.clears[i]); }
    forall probe | probe in next.probes && probe.evidence.Some?
      ensures probe.evidence.value.evidence.account == probe.account
    {
      if probe !in w.probes { assert probe in next.probes - w.probes; }
    }
  }

  lemma CurrentKeepsLatch(lease: Lease, view: Registry)
    ensures Current(lease, view).latch == lease.latch
    ensures Current(lease, view).latestRead == lease.latestRead || Current(lease, view).latestRead.None?
  {
  }

  ghost predicate ProofInv(w: World) {
    Recovery.Inv(w.recovery) && ClearInv(w)
  }

  lemma ObserveKeeps(w: World, account: AccountKey, baseRevision: int, view: Registry,
                     evidence: Option<RecoveryEvidence>, next: World)
    requires ProofInv(w) && ObserveStep(w, account, baseRevision, view, evidence, next)
    ensures ProofInv(next)
  {
    hide Reads;
    hide Recovery.Inv;
    ReadingSteps(w.lease, w.recovery, view, next.lease, next.recovery);
    ClearsStay(w, next);
  }

  lemma ClearKeeps(w: World, probe: Probe, view: Registry, adopted: Lease, read: Recovery.World, next: World)
    requires ProofInv(w) && probe in w.probes && probe.evidence.Some?
    requires ClearStep(w, probe, view, adopted, read, next)
    ensures ProofInv(next)
  {
    hide Reads;
    hide Recovery.Inv;
    hide Consumed;
    hide Live;
    var e := probe.evidence.value;
    ReadingSteps(w.lease, w.recovery, view, adopted, read);
    var mid := w.(lease := adopted, recovery := read);
    ClearsStay(w, mid);
    if !Live(view.snapshot, probe.account, w.recovery.clock) {
      Recovery.StepKeepsInv(read, Recovery.Action.Consume(e), next.recovery);
      hide Warranted;
      forall i | 0 <= i < |next.clears|
        ensures Warranted(next, next.clears[i]) && next.clears[i].clear.evidence == next.recovery.uses[i].id
      {
        if i < |w.clears| {
          WarrantStays(w, next, w.clears[i]);
        } else {
          NewIsWarranted(w, probe, view, next, next.clears[i]);
        }
      }
    }
  }

  lemma NewIsWarranted(w: World, probe: Probe, view: Registry, next: World, c: Asked)
    requires ClearInv(w) && probe in w.probes && probe.evidence.Some? && next.probes == w.probes
    requires !Live(view.snapshot, probe.account, w.recovery.clock)
    requires c == Asked(Clear(probe.account, probe.baseRevision, Id(probe.evidence.value.evidence), probe.registry),
                          probe, view.snapshot, w.recovery.clock)
    ensures Warranted(next, c)
  {
    hide Live;
  }

  lemma StepKeepsProof(w: World, action: Action, next: World)
    requires ProofInv(w) && Step(w, action, next)
    ensures ProofInv(next)
  {
    hide Recovery.Inv;
    hide Reads;
    hide Live;
    match action
    case Tick(to) =>
      Recovery.StepKeepsInv(w.recovery, Recovery.Action.Tick(to), next.recovery);
      ClearsStay(w, next);
    case ReadStore(stored) =>
      Recovery.StepKeepsInv(w.recovery, Recovery.Action.Capture(stored), next.recovery);
      ClearsStay(w, next);
    case AdoptRead(view) =>
      ReadingSteps(w.lease, w.recovery, view, next.lease, next.recovery);
      ClearsStay(w, next);
    case Install(timedOut, view) => InstallKeepsProof(w, timedOut, view, next);
    case Observe(account, baseRevision, view, evidence) =>
      ObserveKeeps(w, account, baseRevision, view, evidence, next);
    case AfterProbe(probe, success, parsedLimit, view) =>
      ProbeKeepsProof(w, probe, success, parsedLimit, view, next);
    case Release(view) =>
      CurrentKeepsLatch(w.lease, view);
      ClearsStay(w, next);
    case _ => ClearsStay(w, next);
  }

  lemma ProbeKeepsProof(w: World, probe: Probe, success: bool, parsedLimit: bool, view: Registry, next: World)
    requires ProofInv(w) && ProbeStep(w, probe, success, parsedLimit, view, next)
    ensures ProofInv(next)
  {
    hide ProofInv;
    hide ClearStep;
    if probe.evidence.None? || !success || parsedLimit {
    } else if Current(w.lease, view).registry != Some(probe.registry) {
      CurrentKeepsProof(w, view);
    } else {
      var adopted, read :| ClearStep(w, probe, view, adopted, read, next);
      ClearKeeps(w, probe, view, adopted, read, next);
    }
  }

  lemma CurrentKeepsProof(w: World, view: Registry)
    requires ProofInv(w)
    ensures ProofInv(w.(lease := Current(w.lease, view)))
  {
    CurrentKeepsLatch(w.lease, view);
    ClearsStay(w, w.(lease := Current(w.lease, view)));
  }

  lemma InstallKeepsProof(w: World, timedOut: bool, view: Registry, next: World)
    requires ProofInv(w) && Step(w, Action.Install(timedOut, view), next)
    ensures ProofInv(next)
  {
    hide Recovery.Inv;
    hide Reads;
    var installed := Installed(w.lease, w.acquiring.id, timedOut, view);
    ClearsStay(w, w.(lease := installed));
    if !(timedOut || w.lease.fallback) {
      ReadingSteps(installed, w.recovery, view, next.lease, next.recovery);
    }
    ClearsStay(w, next);
  }

  lemma StartHasInvs(w: World)
    requires Starts(w)
    ensures RegistryInv(w) && ProofInv(w)
  {
    Recovery.StartsWell(w.recovery);
  }

  lemma {:induction false} RunKeepsInvs(trace: seq<World>, actions: seq<Action>, i: nat)
    requires Run(trace, actions) && Starts(trace[0]) && i < |trace|
    ensures RegistryInv(trace[i]) && ProofInv(trace[i])
    decreases i
  {
    hide Step;
    hide RegistryInv;
    hide ProofInv;
    if i == 0 {
      StartHasInvs(trace[0]);
    } else {
      RunKeepsInvs(trace, actions, i - 1);
      RegistryStep(trace[i - 1], actions[i - 1], trace[i]);
      StepKeepsProof(trace[i - 1], actions[i - 1], trace[i]);
    }
  }

  // ---------------------------------------------------------------------
  // Main results
  // ---------------------------------------------------------------------

  /** At most one acquired registry is undisposed at any time, also while one is given up and another acquired. */
  lemma AtMostOneUndisposed(trace: seq<World>, actions: seq<Action>, i: nat)
    requires Run(trace, actions) && Starts(trace[0]) && i < |trace|
    ensures |trace[i].live| <= 1
  {
    RunKeepsInvs(trace, actions, i);
    if live :| live in trace[i].live {
      assert trace[i].live == {live};
    }
  }

  /** Once tracking has stopped, no later step installs a registry. */
  lemma {:induction false} StoppedForGood(trace: seq<World>, actions: seq<Action>, i: nat, j: nat)
    requires Run(trace, actions) && Starts(trace[0]) && i <= j < |trace| && trace[i].lease.fallback
    ensures trace[j].lease.fallback && trace[j].lease.registry.None?
    decreases j
  {
    hide Step;
    hide Starts;
    hide RegistryInv;
    hide ProofInv;
    if i < j {
      StoppedForGood(trace, actions, i, j - 1);
      RunKeepsInvs(trace, actions, j - 1);
      RegistryStep(trace[j - 1], actions[j - 1], trace[j]);
    }
    RunKeepsInvs(trace, actions, j);
    NoRegistryWhenStopped(trace[j]);
  }

  lemma NoRegistryWhenStopped(w: World)
    requires RegistryInv(w)
    ensures w.lease.fallback ==> w.lease.registry.None?
  {
  }

  /** Every mark of the account has run out by then. */
  ghost predicate AllRunOut(snapshot: Namespace, account: AccountKey, at: int) {
    forall mark, entry :: mark in snapshot.marks && mark.key.account == account && entry in mark.entries ==>
      entry.until <= at
  }

  lemma LiveUnlessRunOut(snapshot: Namespace, account: AccountKey, at: int)
    ensures Live(snapshot, account, at) <==> !AllRunOut(snapshot, account, at)
  {
  }

  /**
   Every clear asked for names the account of a probe that was made, and its registry; it rests on that probe's
   evidence, which is of the same account and was used up for it; and every mark of the account had run out.
   */
  lemma ClearsAreWarranted(trace: seq<World>, actions: seq<Action>, i: nat, k: nat)
    requires Run(trace, actions) && Starts(trace[0]) && i < |trace| && k < |trace[i].clears|
    ensures var asked := trace[i].clears[k];
            && asked.probe in trace[i].probes && asked.probe.evidence.Some?
            && asked.clear.account == asked.probe.account && asked.clear.registry == asked.probe.registry
            && asked.clear.evidence == Id(asked.probe.evidence.value.evidence)
            && asked.clear.evidence.account == asked.clear.account
            && AllRunOut(asked.snapshot, asked.clear.account, asked.at)
    ensures k < |trace[i].recovery.uses| && trace[i].recovery.uses[k].id == trace[i].clears[k].clear.evidence
  {
    RunKeepsInvs(trace, actions, i);
    LiveUnlessRunOut(trace[i].clears[k].snapshot, trace[i].clears[k].clear.account, trace[i].clears[k].at);
  }

  /** The one clear asked for, if any. */
  function AskedFor(clear: Option<Clear>, probe: Probe, snapshot: Namespace, at: int): seq<Asked> {
    if clear.Some? then [Asked(clear.value, probe, snapshot, at)] else []
  }

  /** The end of a probe in a run is what the lease's own method does, with the clear it asks for. */
  lemma ProbeStepIsAfterProbe(w: World, probe: Probe, success: bool, parsedLimit: bool, view: Registry, lease: Lease,
                              clear: Option<Clear>)
    requires ProofInv(w) && probe in w.probes
    ensures ProbeEnds(w.lease, probe, success, parsedLimit, view, w.recovery.clock, lease, clear)
       <==> exists next :: ProbeStep(w, probe, success, parsedLimit, view, next) && next.lease == lease
              && next.clears == w.clears + AskedFor(clear, probe, view.snapshot, w.recovery.clock)
  {
    var asked := AskedFor(clear, probe, view.snapshot, w.recovery.clock);
    if ProbeEnds(w.lease, probe, success, parsedLimit, view, w.recovery.clock, lease, clear) {
      var next := AfterProbeStep(w, probe, success, parsedLimit, view, lease, clear);
      assert next.clears == w.clears + asked;
    }
    if next :| ProbeStep(w, probe, success, parsedLimit, view, next) && next.lease == lease
               && next.clears == w.clears + asked
    {
      StepIsAfterProbe(w, probe, success, parsedLimit, view, next, clear);
    }
  }

  lemma AfterProbeStep(w: World, probe: Probe, success: bool, parsedLimit: bool, view: Registry, lease: Lease,
                       clear: Option<Clear>) returns (next: World)
    requires ProofInv(w) && probe in w.probes
    requires ProbeEnds(w.lease, probe, success, parsedLimit, view, w.recovery.clock, lease, clear)
    ensures ProbeStep(w, probe, success, parsedLimit, view, next) && next.lease == lease
    ensures next.clears == w.clears + AskedFor(clear, probe, view.snapshot, w.recovery.clock)
  {
    hide Adopts;
    hide Live;
    hide Recovery.Inv;
    hide Warranted;
    hide Consumed;
    if probe.evidence.None? || !success || parsedLimit {
      next := w;
    } else if Current(w.lease, view).registry != Some(probe.registry) {
      next := w.(lease := Current(w.lease, view));
    } else {
      var adopted :|
        && AdoptsRead(w.lease, view, adopted)
        && if Live(view.snapshot, probe.account, w.recovery.clock) then lease == adopted && clear.None?
           else
             && lease == adopted.(latch := Consumed(adopted.latch, probe.evidence.value))
             && clear == if Spends(adopted.latch, probe.evidence.value)
                         then Some(Clear(probe.account, probe.baseRevision, Id(probe.evidence.value.evidence),
                                         probe.registry))
                         else None;
      var read := ReadAlong(w, view, adopted);
      next := w.(lease := lease, recovery := read,
                 clears := w.clears + AskedFor(clear, probe, view.snapshot, w.recovery.clock));
      if !Live(view.snapshot, probe.account, w.recovery.clock) {
        var e := probe.evidence.value;
        next := next.(recovery := read.(latch := Consumed(read.latch, e),
                        uses := if Recovery.Used(read.latch, e)
                                then read.uses + [Recovery.Use(|read.history|, Id(e.evidence))] else read.uses));
      }
      assert ClearStep(w, probe, view, adopted, read, next);
    }
  }

  /** The world of the latch when the lease adopts its read. */
  lemma ReadAlong(w: World, view: Registry, adopted: Lease) returns (read: Recovery.World)
    requires ProofInv(w) && AdoptsRead(w.lease, view, adopted)
    ensures Reads(w.lease, w.recovery, view, adopted, read) && read.latch == adopted.latch
  {
    hide Adopts;
    hide Recovery.Inv;
    hide Warranted;
    var current := Current(w.lease, view);
    read := w.recovery;
    if MayAdopt(current, view) {
      var taken := current.latestRead.value;
      read := w.recovery.(latch := adopted.latch, lastAt := taken.at,
                          history := Recovery.Entered(w.recovery, taken.view.snapshot.generation));
    }
  }

  lemma StepIsAfterProbe(w: World, probe: Probe, success: bool, parsedLimit: bool, view: Registry, next: World,
                         clear: Option<Clear>)
    requires ProbeStep(w, probe, success, parsedLimit, view, next)
    requires next.clears == w.clears + AskedFor(clear, probe, view.snapshot, w.recovery.clock)
    ensures ProbeEnds(w.lease, probe, success, parsedLimit, view, w.recovery.clock, next.lease, clear)
  {
    hide Adopts;
    hide Live;
    hide Consumed;
    hide Recovery.Step;
    hide Spends;
    if probe.evidence.None? || !success || parsedLimit {
    } else if Current(w.lease, view).registry != Some(probe.registry) {
    } else {
      var adopted, read :| ClearStep(w, probe, view, adopted, read, next);
      assert clear.Some? ==> next.clears[|w.clears|].clear == clear.value;
    }
  }

  /** The view of the registry that the step looks at. */
  function LooksAt(action: Action): Option<Registry> {
    match action
    case AdoptRead(view) => Some(view)
    case Observe(_, _, view, _) => Some(view)
    case Release(view) => Some(view)
    case AfterProbe(probe, success, parsedLimit, view) =>
      if probe.evidence.Some? && success && !parsedLimit then Some(view) else None
    case _ => None
  }

  /** Whatever looks at the registry and finds it abandoned gives it up, ends tracking and leaves the latch alone. */
  lemma AbandonedEndsTracking(trace: seq<World>, actions: seq<Action>, i: nat)
    requires Run(trace, actions) && Starts(trace[0]) && i < |actions| && trace[i].lease.registry.Some?
    requires LooksAt(actions[i]).Some? && LooksAt(actions[i]).value.abandoned
    ensures var lease, next := trace[i].lease, trace[i + 1].lease;
            && next.fallback && next.registry.None? && next.latestRead.None? && next.releasing == lease.registry
            && next.latch == lease.latch && trace[i + 1].clears == trace[i].clears
  {
    RunKeepsInvs(trace, actions, i);
    NoRegistryWhenStopped(trace[i]);
    assert Step(trace[i], actions[i], trace[i + 1]);
  }

  /**
   A registry that arrives is put to use unless it is too late, tracking has stopped or it is abandoned; then
   tracking has ended and the registry waits to be disposed of.
   */
  lemma InstalledExactlyWhen(trace: seq<World>, actions: seq<Action>, i: nat)
    requires Run(trace, actions) && i < |actions| && actions[i].Install?
    ensures var w, next, view := trace[i], trace[i + 1], actions[i].view;
            && w.acquiring.Arrived? && next.acquiring.NotAcquiring?
            && if actions[i].timedOut || w.lease.fallback
               then next.lease.fallback && next.late == LateArrived(w.acquiring.id)
               else if view.abandoned then next.lease.fallback && next.lease.releasing == Some(w.acquiring.id)
               else next.lease.registry == Some(w.acquiring.id) && !next.lease.fallback
  {
    assert Step(trace[i], actions[i], trace[i + 1]);
  }

  /** A read is taken exactly by a lease with a registry, not abandoned, to which it is news. */
  lemma ReadIsTakenExactlyWhen(trace: seq<World>, actions: seq<Action>, i: nat)
    requires Run(trace, actions) && Starts(trace[0]) && i < |actions|
    requires actions[i].AdoptRead? && !actions[i].view.abandoned
    ensures var w, next, snapshot := trace[i], trace[i + 1], actions[i].view.snapshot;
            if w.lease.registry.Some? && w.lease.latestRead.Some?
               && Recovery.IsNewsOf(w.lease.latch, w.lease.latestRead.value, snapshot)
            then next.lease.latch.adopted == w.lease.latestRead.value.token
                 && next.lease.latch.generation == Some(snapshot.generation)
            else next == w
  {
    RunKeepsInvs(trace, actions, i);
    assert Step(trace[i], actions[i], trace[i + 1]);
  }

  /** The probe added by looking at an account takes along the latest evidence of it that has run out. */
  lemma ProbesTakeTheLatest(trace: seq<World>, actions: seq<Action>, i: nat)
    requires Run(trace, actions) && Starts(trace[0]) && i < |actions| && actions[i].Observe?
    ensures var account, evidence, next := actions[i].account, actions[i].evidence, trace[i + 1];
            var latch, now := next.lease.latch, trace[i].recovery.clock;
            && (next.lease.registry.Some? ==>
                  Probe(account, actions[i].baseRevision, next.lease.registry.value, evidence) in next.probes)
            && (evidence.None? <==>
                  latch.exhausted || latch.generation.None? || forall id :: !Recovery.Ripe(latch, account, now, id))
            && (evidence.Some? ==>
                  var id := Id(evidence.value.evidence);
                  && latch.generation == Some(evidence.value.generation) && Recovery.Ripe(latch, account, now, id)
                  && forall other :: Recovery.Ripe(latch, account, now, other) && other != id ==>
                       Recovery.Later(id, other))
  {
    RunKeepsInvs(trace, actions, i + 1);
    assert Step(trace[i], actions[i], trace[i + 1]);
    LatestOrNone(trace[i + 1], actions[i].account, trace[i].recovery.clock, actions[i].evidence);
  }

  lemma LatestOrNone(w: World, account: AccountKey, now: int, evidence: Option<RecoveryEvidence>)
    requires ProofInv(w) && BestEvidence(w.lease.latch, account, now, evidence)
    ensures var latch := w.lease.latch;
            && (evidence.None? <==>
                  latch.exhausted || latch.generation.None? || forall id :: !Recovery.Ripe(latch, account, now, id))
            && (evidence.Some? ==>
                  var id := Id(evidence.value.evidence);
                  && latch.generation == Some(evidence.value.generation) && Recovery.Ripe(latch, account, now, id)
                  && forall other :: Recovery.Ripe(latch, account, now, other) && other != id ==>
                       Recovery.Later(id, other))
  {
    var latch := w.lease.latch;
    assert Keyed(latch.staged);
    if evidence.Some? { Recovery.CandidateIsTheLatest(latch, account, now, evidence.value.evidence); }
    hide Recovery.Later;
    forall id | Recovery.Ripe(latch, account, now, id) ensures latch.staged[id].account == account { }
  }

  /**
   After a successful probe on the registry in use, its evidence is tried exactly when every mark of its account
   has run out: then a clear is asked for, unless the evidence was not staged or the latch is exhausted or of
   another generation. While a mark still runs nothing is used up.
   */
  lemma EvidenceIsTried(trace: seq<World>, actions: seq<Action>, i: nat)
    requires Run(trace, actions) && Starts(trace[0]) && i < |actions|
    requires actions[i].AfterProbe? && actions[i].success && !actions[i].parsedLimit
    requires actions[i].probe.evidence.Some? && !actions[i].view.abandoned
    requires trace[i].lease.registry == Some(actions[i].probe.registry)
    ensures var w, next, probe := trace[i], trace[i + 1], actions[i].probe;
            var latch, evidence := next.lease.latch, probe.evidence.value;
            if AllRunOut(actions[i].view.snapshot, probe.account, w.recovery.clock) then
              || |next.clears| == |w.clears| + 1 || latch.exhausted
              || latch.generation != Some(evidence.generation) || Id(evidence.evidence) !in latch.staged
            else
              && next.clears == w.clears && next.recovery.uses == w.recovery.uses
              && (latch.generation == w.lease.latch.generation ==> latch.consumed == w.lease.latch.consumed)
  {
    var w, next, probe := trace[i], trace[i + 1], actions[i].probe;
    RunKeepsInvs(trace, actions, i);
    RunKeepsInvs(trace, actions, i + 1);
    assert Step(w, actions[i], next);
    LiveUnlessRunOut(actions[i].view.snapshot, probe.account, w.recovery.clock);
    hide RegistryInv;
    hide ProofInv;
    hide Starts;
    hide ClearStep;
    hide Live;
    hide AllRunOut;
    SuccessTries(w, actions[i], next);
    hide Step;
    var adopted, read :| ClearStep(w, probe, actions[i].view, adopted, read, next);
    TriedOrNot(w, probe, actions[i].view, adopted, read, next);
  }

  lemma SuccessTries(w: World, action: Action, next: World)
    requires Step(w, action, next) && action.AfterProbe? && action.success && !action.parsedLimit
    requires action.probe.evidence.Some? && !action.view.abandoned
    requires w.lease.registry == Some(action.probe.registry)
    ensures exists adopted, read :: ClearStep(w, action.probe, action.view, adopted, read, next)
  {
    hide ClearStep;
    assert Current(w.lease, action.view) == w.lease;
  }

  lemma TriedOrNot(w: World, probe: Probe, view: Registry, adopted: Lease, read: Recovery.World, next: World)
    requires ProofInv(w) && ProofInv(next) && probe.evidence.Some?
    requires ClearStep(w, probe, view, adopted, read, next)
    ensures var latch, evidence := next.lease.latch, probe.evidence.value;
            if Live(view.snapshot, probe.account, w.recovery.clock) then
              && next.clears == w.clears && next.recovery.uses == w.recovery.uses
              && (latch.generation == w.lease.latch.generation ==> latch.consumed == w.lease.latch.consumed)
            else
              || |next.clears| == |w.clears| + 1 || latch.exhausted
              || latch.generation != Some(evidence.generation) || Id(evidence.evidence) !in latch.staged
  {
    hide Live;
    hide Reads;
    hide ProofInv;
    hide Recovery.Step;
    hide Consumed;
    hide Spends;
    ReadingKeepsSpent(w, view, adopted, read);
    if !Live(view.snapshot, probe.account, w.recovery.clock) {
      UsedOrUnusable(adopted.latch, probe.evidence.value);
    }
  }

  lemma ReadingKeepsSpent(w: World, view: Registry, adopted: Lease, read: Recovery.World)
    requires ProofInv(w) && Reads(w.lease, w.recovery, view, adopted, read)
    ensures read.uses == w.recovery.uses
    ensures adopted.latch.generation == w.lease.latch.generation ==> adopted.latch.consumed == w.lease.latch.consumed
    ensures adopted.latch.staged.Keys !! adopted.latch.consumed.Keys
  {
    hide Recovery.Inv;
    hide Warranted;
    hide RememberedFollows;
    hide StagedFollows;
    ReadingSteps(w.lease, w.recovery, view, adopted, read);
    CurrentKeepsLatch(w.lease, view);
    StagedIsUnspent(read);
  }

  lemma StagedIsUnspent(w: Recovery.World)
    requires Recovery.Inv(w)
    ensures w.latch.staged.Keys !! w.latch.consumed.Keys
  {
    hide Recovery.UsesInv;
  }

  lemma UsedOrUnusable(latch: Latch, e: RecoveryEvidence)
    requires latch.staged.Keys !! latch.consumed.Keys
    ensures var next := Consumed(latch, e);
            || Spends(latch, e) || next.exhausted || next.generation != Some(e.generation)
            || Id(e.evidence) !in next.staged
  {
  }

  /** A clear is asked for only after a successful probe on the registry still in use. */
  lemma ClearsFollowSuccess(trace: seq<World>, actions: seq<Action>, i: nat)
    requires Run(trace, actions) && Starts(trace[0]) && i < |actions|
    requires trace[i + 1].clears != trace[i].clears
    ensures actions[i].AfterProbe? && actions[i].success && !actions[i].parsedLimit
    ensures trace[i].lease.registry == Some(actions[i].probe.registry)
    ensures |trace[i + 1].clears| == |trace[i].clears| + 1
    ensures trace[i + 1].clears[|trace[i].clears|].probe == actions[i].probe
    ensures trace[i + 1].clears[|trace[i].clears|].snapshot == actions[i].view.snapshot
  {
    hide Reads;
    hide Live;
    hide Spends;
    assert Step(trace[i], actions[i], trace[i + 1]);
  }

  /** In one stretch of a generation two clears of an account rest on different evidence, the later one newer. */
  lemma EvidenceClearsOnce(trace: seq<World>, actions: seq<Action>, i: nat, j: nat, k: nat)
    requires Run(trace, actions) && Starts(trace[0]) && i < |trace| && j < k < |trace[i].clears|
    ensures |trace[i].recovery.uses| == |trace[i].clears|
    ensures trace[i].recovery.uses[j].stretch == trace[i].recovery.uses[k].stretch
            && trace[i].clears[j].clear.account == trace[i].clears[k].clear.account ==>
              Recovery.Exceeds(trace[i].clears[k].clear.evidence, trace[i].clears[j].clear.evidence)
  {
    RunKeepsInvs(trace, actions, i);
    ClearsAreWarranted(trace, actions, i, j);
    ClearsAreWarranted(trace, actions, i, k);
  }

  /** The generation the latch was in when the clear was asked for. */
  ghost function GenerationOfClear(w: World, k: nat): string
    requires RegistryInv(w) && ProofInv(w) && k < |w.clears|
  {
    Recovery.GenerationOf(w.recovery, k)
  }

  /**
   Over a whole run, two clears rest on the same evidence under the same generation only if the latch went
   through another generation in between.
   */
  lemma EvidenceClearsAgainOnlyAcrossGenerations(trace: seq<World>, actions: seq<Action>, i: nat, j: nat, k: nat)
    requires Run(trace, actions) && Starts(trace[0]) && i < |trace| && j < k < |trace[i].clears|
    ensures RegistryInv(trace[i]) && ProofInv(trace[i])
    ensures trace[i].clears[j].clear.evidence == trace[i].clears[k].clear.evidence
            && GenerationOfClear(trace[i], j) == GenerationOfClear(trace[i], k) ==>
              Recovery.LeftBetween(trace[i].recovery, j, k)
  {
    RunKeepsInvs(trace, actions, i);
    Recovery.SameUseLeaves(trace[i].recovery, j, k);
  }
}
