/**
 One process's hold on the limits of a namespace (`NamespaceLease`): the registry it works with, the
 recovery latch fed from what the registry read, and the clears a successful probe may ask for.
 */
module LimitsLease {
  import opened Options
  import opened RecoveryLatch
  import Provenance = LimitProvenance

  const RETRY_MS: int := 1000
  const FAILURE_RUN_MS: int := 60000

  type RegistryId = nat

  /** What the lease's registry shows when it is looked at. */
  datatype Registry = Registry(snapshot: Namespace, abandoned: bool, operations: set<string>)

  datatype Probe = Probe(
    account: AccountKey, baseRevision: int, registry: RegistryId, evidence: Option<RecoveryEvidence>)

  /** The command that clears an account's rate-limit marks on the strength of the evidence. */
  datatype Clear = Clear(account: AccountKey, baseRevision: int, evidence: EvidenceId, registry: RegistryId)

  datatype Command = Mark(account: AccountKey, until: int, evidenceAt: int)
                   | Control(account: AccountKey, operation: string)

  /** The fields of the lease that decide what it may do. */
  datatype Lease = Lease(
    registry: Option<RegistryId>,
    fallback: bool,
    releasing: Option<RegistryId>,
    latestRead: Option<RecoveryRead>,
    latch: Latch)

  // ---------------------------------------------------------------------
  // What each operation does
  // ---------------------------------------------------------------------

  /** Tracking ends for good: the registry is given up and disposed of. */
  function Stopped(lease: Lease): Lease {
    if lease.fallback then lease
    else lease.(fallback := true, registry := None, latestRead := None,
                releasing := if lease.registry.Some? then lease.registry else lease.releasing)
  }

  function Current(lease: Lease, view: Registry): Lease {
    if lease.registry.Some? && view.abandoned then Stopped(lease) else lease
  }

  predicate MayAdopt(lease: Lease, view: Registry) {
    lease.registry.Some? && lease.latestRead.Some? && Adoptable(lease.latch, lease.latestRead.value, view.snapshot)
  }

  ghost predicate AdoptsRead(lease: Lease, view: Registry, next: Lease) {
    var current := Current(lease, view);
    if MayAdopt(current, view)
    then Adopts(current.latch, current.latestRead.value, next.latch) && next == current.(latch := next.latch)
    else next == current
  }

  /** Some mark of the account still runs. */
  predicate Live(snapshot: Namespace, account: AccountKey, now: int) {
    exists i, j :: 0 <= i < |snapshot.marks| && 0 <= j < |snapshot.marks[i].entries|
                   && snapshot.marks[i].key.account == account && snapshot.marks[i].entries[j].until > now
  }

  /** The evidence a probe of the account takes along: a candidate, or none if there is none to use. */
  predicate BestEvidence(latch: Latch, account: AccountKey, now: int, evidence: Option<RecoveryEvidence>) {
    if evidence.Some? then
      && IsCandidate(latch, account, now, evidence.value.evidence)
      && !latch.exhausted && latch.generation == Some(evidence.value.generation)
    else
      || latch.exhausted || latch.generation.None?
      || forall id :: id in latch.staged && latch.staged[id].account == account ==> latch.staged[id].until > now
  }

  /** What a probe's outcome does: it may use up its evidence and ask for one clear. */
  ghost predicate ProbeEnds(lease: Lease, probe: Probe, success: bool, parsedLimit: bool, view: Registry, now: int,
                            next: Lease, clear: Option<Clear>)
  {
    if probe.evidence.None? || !success || parsedLimit then next == lease && clear.None?
    else if Current(lease, view).registry != Some(probe.registry) then next == Current(lease, view) && clear.None?
    else
      exists adopted ::
        && AdoptsRead(lease, view, adopted)
        && if Live(view.snapshot, probe.account, now) then next == adopted && clear.None?
           else
             && next == adopted.(latch := Consumed(adopted.latch, probe.evidence.value))
             && clear == if Spends(adopted.latch, probe.evidence.value)
                         then Some(Clear(probe.account, probe.baseRevision, Id(probe.evidence.value.evidence),
                                         probe.registry))
                         else None
  }

  predicate Spends(latch: Latch, e: RecoveryEvidence) {
    Consumable(latch, e) && Fits(latch, e)
  }

  /** The segment of `acquire` that runs once an attempt came back or the time for it was up. */
  function Installed(lease: Lease, arrived: RegistryId, timedOut: bool, view: Registry): Lease {
    if timedOut || lease.fallback then Stopped(lease)
    else
      var installed := lease.(registry := Some(arrived));
      if view.abandoned then Stopped(installed) else installed
  }

  /** The segment of `release` that runs when no owner is left. */
  function Released(lease: Lease, view: Registry): Lease {
    var current := Current(lease, view);
    current.(registry := None, releasing := if current.registry.Some? then current.registry else current.releasing)
  }

  // ---------------------------------------------------------------------
  // The class
  // ---------------------------------------------------------------------

  class NamespaceLease {
    var registry: Option<RegistryId>
    var fallback: bool
    var releasing: Option<RegistryId>
    var latestRead: Option<RecoveryRead>
    var failureAt: Option<int>
    var retryAt: int
    var retryDelay: int
    var controls: set<string>
    var provenanceGeneration: Option<string>
    const recovery: LimitRecoveryLatch
    const provenance: Provenance.LimitProvenanceStore

    predicate Valid()
      reads this, recovery, provenance
    {
      && recovery.Valid() && provenance.Valid()
      && (fallback ==> registry.None?)
      && RETRY_MS <= retryDelay <= FAILURE_RUN_MS
    }

    function State(): Lease
      reads this, recovery
    {
      Lease(registry, fallback, releasing, latestRead, recovery.State())
    }

    constructor (namespace: string)
      ensures Valid() && State() == Lease(None, false, None, None, EMPTY_LATCH)
      ensures fresh(recovery) && fresh(provenance)
    {
      registry, fallback, releasing, latestRead := None, false, None, None;
      failureAt, retryAt, retryDelay := None, 0, RETRY_MS;
      controls, provenanceGeneration := {}, None;
      recovery := new LimitRecoveryLatch();
      provenance := new Provenance.LimitProvenanceStore(namespace);
    }

    method StopTracking()
      requires Valid()
      modifies this, provenance
      ensures Valid() && State() == Stopped(old(State()))
      ensures fallback && (!old(fallback) ==> provenance.entries == map[])
      ensures controls == old(controls) && provenanceGeneration == old(provenanceGeneration)
      ensures failureAt == old(failureAt) && retryAt == old(retryAt) && retryDelay == old(retryDelay)
    {
      if fallback { return; }
      fallback := true;
      var given := registry;
      registry := None;
      latestRead := None;
      provenance.Clear();
      if given.Some? { releasing := given; }
    }

    /** A failed read: a run of failures that lasts a minute ends tracking, and each one doubles the wait. */
    method RecordFailure(now: int)
      requires Valid()
      modifies this, provenance
      ensures Valid()
      ensures State() == if old(registry).Some? && !old(fallback)
                            && now - (if old(failureAt).Some? then old(failureAt).value else now) >= 60_000
                         then Stopped(old(State())) else old(State())
      ensures old(registry).Some? ==>
                && failureAt == Some(if old(failureAt).Some? then old(failureAt).value else now)
                && retryAt == now + old(retryDelay)
                && retryDelay == (if 2 * old(retryDelay) < 60_000 then 2 * old(retryDelay) else 60_000)
    {
      if registry.None? || fallback { return; }
      if failureAt.None? { failureAt := Some(now); }
      retryAt := now + retryDelay;
      retryDelay := if FAILURE_RUN_MS < retryDelay * 2 then FAILURE_RUN_MS else retryDelay * 2;
      if now - failureAt.value >= FAILURE_RUN_MS { StopTracking(); }
    }

    method RecordSuccess()
      requires Valid()
      modifies this
      ensures Valid() && State() == old(State())
      ensures failureAt.None? && retryAt == 0 && retryDelay == 1000
    {
      failureAt, retryAt, retryDelay := None, 0, RETRY_MS;
    }

    method LookAt(view: Registry) returns (current: Option<RegistryId>)
      requires Valid()
      modifies this, provenance
      ensures Valid() && State() == Current(old(State()), view) && current == registry
      ensures current.Some? ==> provenance.entries == old(provenance.entries) && controls == old(controls)
    {
      if registry.Some? && view.abandoned { StopTracking(); }
      return registry;
    }

    /** Feeds the latch with the last read, if it is of the registry's own revision. */
    method AdoptRead(view: Registry, now: int)
      requires Valid()
      modifies this, recovery, provenance
      ensures Valid() && AdoptsRead(old(State()), view, State())
      ensures MayAdopt(Current(old(State()), view), view) ==>
                && controls == old(controls) - view.operations
                && provenanceGeneration == Some(view.snapshot.generation)
                && forall account :: account in provenance.entries ==>
                     Provenance.Backed(provenance.entries[account], view.snapshot)
    {
      hide Adopts;
      hide Adoptable;
      hide Wellformed;
      hide Provenance.Backed;
      hide Provenance.WellKeyed;
      var current := LookAt(view);
      if current.None? || latestRead.None? { return; }
      var taken := recovery.Adopt(latestRead.value, view.snapshot);
      if !taken { return; }
      if provenanceGeneration.Some? && provenanceGeneration != Some(view.snapshot.generation) { provenance.Clear(); }
      provenanceGeneration := Some(view.snapshot.generation);
      provenance.Reconcile(view.snapshot, now);
      controls := controls - view.operations;
    }

    /** Hands a command to the registry; without one, a mark is dropped. */
    method Enqueue(command: Command, noted: Option<Provenance.Provenance>, view: Registry, now: int)
      returns (queued: bool, dropped: bool)
      requires Valid()
      modifies this, provenance
      ensures Valid() && State() == Current(old(State()), view)
      ensures queued == State().registry.Some? && dropped == (!queued && command.Mark?)
      ensures queued && command.Control? ==> controls == old(controls) + {command.operation}
      ensures queued && (command.Control? || noted.None?) ==>
                provenance.entries == old(provenance.entries) - {command.account}
      ensures queued && command.Mark? && noted.Some? ==>
                if noted.value.expiry == command.until && noted.value.evidenceAt == command.evidenceAt
                   && noted.value.account == command.account
                then Provenance.Records(old(provenance.entries), provenance.namespace, noted.value, now,
                                        provenance.entries)
                else provenance.entries == old(provenance.entries) - {command.account}
    {
      var current := LookAt(view);
      if current.None? { return false, command.Mark?; }
      if command.Control? { controls := controls + {command.operation}; }
      if command.Mark? && noted.Some? && noted.value.expiry == command.until
         && noted.value.evidenceAt == command.evidenceAt && noted.value.account == command.account
      {
        provenance.Record(noted.value, now);
      } else {
        provenance.Retire(command.account);
      }
      return true, false;
    }

    /** What a request to the account may prove; nothing without a registry. */
    method Observe(account: AccountKey, baseRevision: int, view: Registry, now: int) returns (probe: Option<Probe>)
      requires Valid()
      modifies this, recovery, provenance
      ensures Valid() && AdoptsRead(old(State()), view, State())
      ensures probe.Some? <==> State().registry.Some?
      ensures probe.Some? ==>
                && probe.value.account == account && Some(probe.value.registry) == registry
                && probe.value.baseRevision == baseRevision
                && BestEvidence(recovery.State(), account, now, probe.value.evidence)
    {
      AdoptRead(view, now);
      if registry.None? { return None; }
      var evidence := recovery.Candidate(account, now);
      return Some(Probe(account, baseRevision, registry.value, evidence));
    }

    /** The outcome of a probe: a success with no running mark left may clear the account's marks. */
    method AfterProbe(probe: Probe, success: bool, parsedLimit: bool, operation: string, view: Registry, now: int)
      returns (clear: Option<Clear>)
      requires Valid()
      modifies this, recovery, provenance
      ensures Valid()
      ensures ProbeEnds(old(State()), probe, success, parsedLimit, view, now, State(), clear)
      ensures clear.Some? ==> probe.account !in provenance.entries && operation in controls
    {
      if probe.evidence.None? || !success || parsedLimit { return None; }
      var current := LookAt(view);
      if current != Some(probe.registry) { return None; }
      AdoptRead(view, now);
      ghost var adopted := State();
      if Live(view.snapshot, probe.account, now) { return None; }
      var used := recovery.Consume(probe.evidence.value);
      if !used { return None; }
      var queued, _ := Enqueue(Control(probe.account, operation), None, view, now);
      return Some(Clear(probe.account, probe.baseRevision, Id(probe.evidence.value.evidence), probe.registry));
    }

    method Install(arrived: RegistryId, timedOut: bool, view: Registry, now: int) returns (late: bool)
      requires Valid()
      modifies this, recovery, provenance
      ensures Valid() && late == (timedOut || old(fallback))
      ensures if late || view.abandoned then State() == Installed(old(State()), arrived, timedOut, view)
              else AdoptsRead(Installed(old(State()), arrived, timedOut, view), view, State())
    {
      if timedOut || fallback {
        StopTracking();
        return true;
      }
      registry := Some(arrived);
      if view.abandoned {
        StopTracking();
        return false;
      }
      AdoptRead(view, now);
      return false;
    }

    method Release(view: Registry)
      requires Valid()
      modifies this, provenance
      ensures Valid() && State() == Released(old(State()), view) && provenance.entries == map[]
    {
      var current := LookAt(view);
      registry := None;
      if current.Some? { releasing := current; }
      provenance.Clear();
    }
  }
}
