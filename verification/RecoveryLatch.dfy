/**
 The limit recovery latch (`LimitRecoveryLatch`): evidence that a rate-limit mark ran out, kept
 until one successful probe of the account may use it to clear what is left of the mark.
 */
module RecoveryLatch {
  import opened Options

  const RECOVERY_REMEMBERED_BOUND: nat := 256
  const RECOVERY_STAGED_BOUND: nat := 256
  const RECOVERY_CONSUMED_BOUND: nat := 1024

  datatype AccountKey = AccountKey(namespace: string, accountId: string, incarnation: string)

  datatype MarkKey = MarkKey(account: AccountKey, scope: string, window: string)
  datatype MarkEntry = MarkEntry(cause: string, until: int, evidenceAt: int, committedRevision: int)
  datatype Mark = Mark(key: MarkKey, entries: seq<MarkEntry>)
  datatype Tombstone = Tombstone(key: MarkKey, revision: int, cause: Option<string>)

  datatype Namespace = Namespace(
    namespace: string, generation: string, revision: int, marks: seq<Mark>, tombstones: seq<Tombstone>)

  datatype View = View(
    snapshot: Namespace, bindings: set<AccountKey>, authoritative: bool, degradedAgreement: bool)

  datatype Evidence = Evidence(account: AccountKey, until: int, evidenceAt: int, committedRevision: int)
  datatype EvidenceId = EvidenceId(account: AccountKey, until: int, evidenceAt: int)
  datatype RecoveryEvidence = RecoveryEvidence(evidence: Evidence, generation: string)
  datatype RecoveryRead = RecoveryRead(token: nat, view: View, at: int)

  type EvidenceMap = map<EvidenceId, Evidence>

  function Id(e: Evidence): EvidenceId {
    EvidenceId(e.account, e.until, e.evidenceAt)
  }

  /** The latch as a value. */
  datatype Latch = Latch(
    generation: Option<string>,
    issued: nat,
    adopted: nat,
    remembered: EvidenceMap,
    staged: EvidenceMap,
    consumed: EvidenceMap,
    exhausted: bool)

  const EMPTY_LATCH := Latch(None, 0, 0, map[], map[], map[], false)

  // ---------------------------------------------------------------------
  // What a view shows
  // ---------------------------------------------------------------------

  predicate IsPoolAccountKey(key: MarkKey) {
    key.window == "account" && key.scope == "pool"
  }

  function EntryEvidence(account: AccountKey, entry: MarkEntry): Evidence {
    Evidence(account, entry.until, entry.evidenceAt, entry.committedRevision)
  }

  function ObservedEntries(account: AccountKey, entries: seq<MarkEntry>): EvidenceMap {
    if entries == [] then map[]
    else
      var n := |entries| - 1;
      var front := ObservedEntries(account, entries[..n]);
      if entries[n].cause == "rate-limit"
      then front[Id(EntryEvidence(account, entries[n])) := EntryEvidence(account, entries[n])]
      else front
  }

  /** The rate-limit marks on bound accounts, the last one of each identity. */
  function Observed(marks: seq<Mark>, bindings: set<AccountKey>): EvidenceMap {
    if marks == [] then map[]
    else
      var n := |marks| - 1;
      var front := Observed(marks[..n], bindings);
      if IsPoolAccountKey(marks[n].key) && marks[n].key.account in bindings
      then front + ObservedEntries(marks[n].key.account, marks[n].entries)
      else front
  }

  /** What the first `i` marks show. */
  function ObservedSoFar(marks: seq<Mark>, bindings: set<AccountKey>, i: nat): EvidenceMap
    requires i <= |marks|
  {
    Observed(marks[..i], bindings)
  }

  lemma ObserveStart(marks: seq<Mark>, bindings: set<AccountKey>)
    ensures ObservedSoFar(marks, bindings, 0) == map[]
    ensures ObservedSoFar(marks, bindings, |marks|) == Observed(marks, bindings)
  {
    assert marks[..0] == [] && marks[..|marks|] == marks;
  }

  lemma ObserveStep(marks: seq<Mark>, bindings: set<AccountKey>, i: nat)
    requires i < |marks|
    ensures ObservedSoFar(marks, bindings, i + 1)
         == if marks[i].key.window != "account" || marks[i].key.scope != "pool" || marks[i].key.account !in bindings
            then ObservedSoFar(marks, bindings, i)
            else EntriesSoFar(marks[i].key.account, marks[i].entries, |marks[i].entries|,
                              ObservedSoFar(marks, bindings, i))
  {
    assert marks[..i + 1][..i] == marks[..i];
    assert marks[i].entries[..|marks[i].entries|] == marks[i].entries;
  }

  /** And with the first `j` entries of another mark. */
  function EntriesSoFar(account: AccountKey, entries: seq<MarkEntry>, j: nat, before: EvidenceMap): EvidenceMap
    requires j <= |entries|
  {
    before + ObservedEntries(account, entries[..j])
  }

  lemma EntriesStart(account: AccountKey, entries: seq<MarkEntry>, before: EvidenceMap)
    ensures EntriesSoFar(account, entries, 0, before) == before
  {
    assert entries[..0] == [];
  }

  lemma EntriesStep(account: AccountKey, entries: seq<MarkEntry>, j: nat, before: EvidenceMap)
    requires j < |entries|
    ensures EntriesSoFar(account, entries, j + 1, before)
         == if entries[j].cause != "rate-limit" then EntriesSoFar(account, entries, j, before)
            else EntriesSoFar(account, entries, j, before)
                   [Id(EntryEvidence(account, entries[j])) := EntryEvidence(account, entries[j])]
  {
    assert entries[..j + 1][..j] == entries[..j];
  }

  /** A tombstone in the view covers the evidence. */
  predicate Cleared(tombstones: seq<Tombstone>, e: Evidence) {
    exists i :: 0 <= i < |tombstones| && Covers(tombstones[i], e)
  }

  predicate Covers(clear: Tombstone, e: Evidence) {
    && clear.key.account == e.account
    && IsPoolAccountKey(clear.key)
    && clear.revision >= e.committedRevision
    && (clear.cause.None? || clear.cause.value == "rate-limit")
  }

  predicate Keyed(m: EvidenceMap) {
    forall id :: id in m ==> id == Id(m[id])
  }

  lemma {:induction false} ObservedEntriesKeyed(account: AccountKey, entries: seq<MarkEntry>)
    ensures Keyed(ObservedEntries(account, entries))
    ensures forall id :: id in ObservedEntries(account, entries) ==> id.account == account
  {
    if entries != [] { ObservedEntriesKeyed(account, entries[..|entries| - 1]); }
  }

  lemma {:induction false} ObservedKeyed(marks: seq<Mark>, bindings: set<AccountKey>)
    ensures Keyed(Observed(marks, bindings))
    ensures forall id :: id in Observed(marks, bindings) ==> id.account in bindings
  {
    if marks != [] {
      var n := |marks| - 1;
      ObservedKeyed(marks[..n], bindings);
      ObservedEntriesKeyed(marks[n].key.account, marks[n].entries);
    }
  }

  predicate Bounded(latch: Latch) {
    && |latch.remembered| <= RECOVERY_REMEMBERED_BOUND
    && |latch.staged| <= RECOVERY_STAGED_BOUND
    && |latch.consumed| <= RECOVERY_CONSUMED_BOUND
  }

  /** What every operation of the latch keeps: entries under their own identity, maps within bounds. */
  predicate Wellformed(latch: Latch) {
    Bounded(latch) && Keyed(latch.remembered) && Keyed(latch.staged) && Keyed(latch.consumed)
  }

  // ---------------------------------------------------------------------
  // Domination and staging
  // ---------------------------------------------------------------------

  /** Consumed evidence of the same account reaches at least as far in both respects. */
  predicate Dominated(e: Evidence, consumed: EvidenceMap) {
    && (exists id :: id in consumed && consumed[id].account == e.account && e.until <= consumed[id].until)
    && (exists id :: id in consumed && consumed[id].account == e.account && e.evidenceAt <= consumed[id].evidenceAt)
  }

  predicate MayStage(e: Evidence, consumed: EvidenceMap, exhausted: bool) {
    !exhausted && Id(e) !in consumed && !Dominated(e, consumed)
  }

  /** Staging one piece of evidence. */
  function StagedWith(staged: EvidenceMap, e: Evidence, consumed: EvidenceMap, exhausted: bool): EvidenceMap {
    if MayStage(e, consumed, exhausted) && (Id(e) in staged || |staged| < RECOVERY_STAGED_BOUND)
    then staged[Id(e) := e] else staged
  }

  function Stageable(items: EvidenceMap, consumed: EvidenceMap, exhausted: bool): EvidenceMap {
    map id | id in items && MayStage(items[id], consumed, exhausted) :: items[id]
  }

  /** `after` is `before` with `items` added one by one, in some order, while there is room. */
  predicate Filled(before: EvidenceMap, items: EvidenceMap, after: EvidenceMap, bound: nat) {
    && (forall id :: id in before ==> id in after)
    && (forall id :: id in after ==>
          (id in before || id in items) && after[id] == if id in items then items[id] else before[id])
    && (|before| <= bound ==> |after| <= bound)
    && (|after| >= bound || forall id :: id in items ==> id in after)
  }

  // ---------------------------------------------------------------------
  // Adopting a read
  // ---------------------------------------------------------------------

  predicate Adoptable(latch: Latch, read: RecoveryRead, current: Namespace) {
    && read.token > latch.adopted
    && read.view.authoritative
    && !read.view.degradedAgreement
    && read.view.snapshot.namespace == current.namespace
    && read.view.snapshot.generation == current.generation
    && read.view.snapshot.revision == current.revision
  }

  /** The latch once the read's token and generation are taken over. */
  function Turned(latch: Latch, read: RecoveryRead): Latch {
    var generation := read.view.snapshot.generation;
    if latch.generation == Some(generation) then latch.(adopted := read.token)
    else latch.(adopted := read.token, generation := Some(generation),
                remembered := map[], staged := map[], consumed := map[])
  }

  function Seen(read: RecoveryRead): EvidenceMap {
    Observed(read.view.snapshot.marks, read.view.bindings)
  }

  predicate Bound(read: RecoveryRead, e: Evidence) {
    e.account in read.view.bindings
  }

  predicate Gone(read: RecoveryRead, e: Evidence) {
    Cleared(read.view.snapshot.tombstones, e)
  }

  /** Remembered marks that expired and vanished, though their account is bound and no tombstone covers them. */
  function Lost(latch: Latch, read: RecoveryRead): EvidenceMap {
    map id | id in latch.remembered
             && Bound(read, latch.remembered[id]) && id !in Seen(read)
             && !Gone(read, latch.remembered[id]) && latch.remembered[id].until <= read.at
           :: latch.remembered[id]
  }

  lemma WithinRemembered(latch: Latch, read: RecoveryRead)
    ensures Lost(latch, read).Keys <= latch.remembered.Keys && Shown(latch, read).Keys <= latch.remembered.Keys
    ensures forall id :: id in Shown(latch, read) ==> Shown(latch, read)[id] == latch.remembered[id]
  {
  }

  lemma RememberedAt(latch: Latch, read: RecoveryRead, id: EvidenceId)
    requires Keyed(latch.remembered) && id in latch.remembered
    ensures id == Id(latch.remembered[id])
    ensures id in Lost(latch, read) <==>
            && latch.remembered[id].account in read.view.bindings && id !in Seen(read)
            && !Cleared(read.view.snapshot.tombstones, latch.remembered[id]) && latch.remembered[id].until <= read.at
    ensures id in Lost(latch, read) ==> Lost(latch, read)[id] == latch.remembered[id]
    ensures id in Shown(latch, read) <==> latch.remembered[id].account in read.view.bindings && id in Seen(read)
  {
  }

  /** Remembered marks the view still shows. */
  function Shown(latch: Latch, read: RecoveryRead): EvidenceMap {
    map id | id in latch.remembered && Bound(read, latch.remembered[id]) && id in Seen(read)
           :: latch.remembered[id]
  }

  /** Staged evidence of bound accounts, unless its mark is gone and a tombstone covers it. */
  function Surviving(staged: EvidenceMap, read: RecoveryRead): EvidenceMap {
    map id | id in staged && Bound(read, staged[id]) && (id in Seen(read) || !Gone(read, staged[id]))
           :: staged[id]
  }

  function Expired(latch: Latch, read: RecoveryRead): EvidenceMap {
    map id | id in Seen(read) && id !in latch.consumed && Seen(read)[id].until <= read.at :: Seen(read)[id]
  }

  function Running(latch: Latch, read: RecoveryRead): EvidenceMap {
    map id | id in Seen(read) && id !in latch.consumed && Seen(read)[id].until > read.at :: Seen(read)[id]
  }

  lemma SeenSplits(latch: Latch, read: RecoveryRead)
    ensures Expired(latch, read).Keys <= Seen(read).Keys && Running(latch, read).Keys <= Seen(read).Keys
  {
  }

  lemma SeenAt(latch: Latch, read: RecoveryRead, id: EvidenceId)
    requires id in Seen(read)
    ensures Id(Seen(read)[id]) == id
    ensures id in Expired(latch, read) <==> id !in latch.consumed && Seen(read)[id].until <= read.at
    ensures id in Running(latch, read) <==> id !in latch.consumed && Seen(read)[id].until > read.at
    ensures id in Expired(latch, read) ==> Expired(latch, read)[id] == Seen(read)[id]
    ensures id in Running(latch, read) ==> Running(latch, read)[id] == Seen(read)[id]
  {
    ObservedKeyed(read.view.snapshot.marks, read.view.bindings);
  }

  /** The staged map of `next`: what was staged and survives, then what was lost, then what is shown expired. */
  predicate StagedFollows(latch: Latch, read: RecoveryRead, mid: EvidenceMap, staged: EvidenceMap) {
    && Filled(latch.staged, Stageable(Lost(latch, read), latch.consumed, latch.exhausted), mid, RECOVERY_STAGED_BOUND)
    && Filled(Surviving(mid, read), Stageable(Expired(latch, read), latch.consumed, latch.exhausted), staged,
              RECOVERY_STAGED_BOUND)
  }

  /**
   `remembered` is `shown`, without the `expired` marks among those visited and with the visited ones of
   `running` added while there is room; all of them, if there is room for all of `running`.
   */
  predicate RememberedSoFar(shown: EvidenceMap, expired: EvidenceMap, running: EvidenceMap, todo: set<EvidenceId>,
                            remembered: EvidenceMap)
  {
    && RememberedEntries(shown, expired, running, todo, remembered)
    && (|shown| <= RECOVERY_REMEMBERED_BOUND ==> |remembered| <= RECOVERY_REMEMBERED_BOUND)
    && (|shown.Keys + running.Keys| <= RECOVERY_REMEMBERED_BOUND ==> AllRemembered(running, todo, remembered))
  }

  predicate AllRemembered(running: EvidenceMap, todo: set<EvidenceId>, remembered: EvidenceMap) {
    forall id :: id in running && id !in todo ==> id in remembered
  }

  predicate RememberedEntries(shown: EvidenceMap, expired: EvidenceMap, running: EvidenceMap, todo: set<EvidenceId>,
                              remembered: EvidenceMap)
  {
    && (forall id :: id in shown && (id in expired ==> id in todo) ==> id in remembered)
    && (forall id :: id in remembered ==>
          if id in running && id !in todo then remembered[id] == running[id]
          else id in shown && (id in expired ==> id in todo) && remembered[id] == shown[id])
  }

  predicate RememberedFollows(latch: Latch, read: RecoveryRead, remembered: EvidenceMap) {
    && (|latch.remembered| <= RECOVERY_REMEMBERED_BOUND ==> |remembered| <= RECOVERY_REMEMBERED_BOUND)
    && RememberedSoFar(Shown(latch, read), Expired(latch, read), Running(latch, read), {}, remembered)
  }

  /** `after` is `before` with what may be staged of `items`, outside `todo`, staged while there is room. */
  predicate StagedSoFar(before: EvidenceMap, items: EvidenceMap, todo: set<EvidenceId>, consumed: EvidenceMap,
                        exhausted: bool, after: EvidenceMap)
  {
    Filled(before, Stageable(items - todo, consumed, exhausted), after, RECOVERY_STAGED_BOUND)
  }

  /** What adopting a read may do; the order in which marks are visited decides only what a full map leaves out. */
  ghost predicate Adopts(latch: Latch, read: RecoveryRead, next: Latch) {
    var turned := Turned(latch, read);
    && next == turned.(remembered := next.remembered, staged := next.staged)
    && RememberedFollows(turned, read, next.remembered)
    && exists mid :: StagedFollows(turned, read, mid, next.staged)
  }

  // ---------------------------------------------------------------------
  // Consuming evidence
  // ---------------------------------------------------------------------

  function OfAccount(m: EvidenceMap, account: AccountKey): EvidenceMap {
    map id | id in m && m[id].account == account :: m[id]
  }

  predicate Consumable(latch: Latch, e: RecoveryEvidence) {
    && !latch.exhausted
    && latch.generation == Some(e.generation)
    && Id(e.evidence) in latch.staged
    && Id(e.evidence) !in latch.consumed
  }

  predicate Fits(latch: Latch, e: RecoveryEvidence) {
    |latch.consumed| + |OfAccount(latch.staged, e.evidence.account)| <= RECOVERY_CONSUMED_BOUND
  }

  function Consumed(latch: Latch, e: RecoveryEvidence): Latch {
    var same := OfAccount(latch.staged, e.evidence.account);
    if !Consumable(latch, e) then latch
    else if !Fits(latch, e) then latch.(exhausted := true, staged := map[])
    else latch.(consumed := latch.consumed + same, staged := latch.staged - same.Keys)
  }

  /** Evidence of the account, run out by `now`, that no other such evidence exceeds. */
  predicate IsCandidate(latch: Latch, account: AccountKey, now: int, e: Evidence) {
    && Id(e) in latch.staged && latch.staged[Id(e)] == e
    && e.account == account && e.until <= now
    && forall id :: id in latch.staged && latch.staged[id].account == account && latch.staged[id].until <= now ==>
         latch.staged[id].until < e.until
         || (latch.staged[id].until == e.until && latch.staged[id].evidenceAt <= e.evidenceAt)
  }

  predicate AtMost(a: Evidence, b: Evidence) {
    a.until < b.until || (a.until == b.until && a.evidenceAt <= b.evidenceAt)
  }

  // ---------------------------------------------------------------------
  // One step of each pass
  // ---------------------------------------------------------------------

  lemma StageableLess(items: EvidenceMap, todo: set<EvidenceId>, id: EvidenceId, consumed: EvidenceMap, exhausted: bool)
    requires id in todo
    ensures Stageable(items - (todo - {id}), consumed, exhausted)
         == if id in items && MayStage(items[id], consumed, exhausted)
            then Stageable(items - todo, consumed, exhausted)[id := items[id]]
            else Stageable(items - todo, consumed, exhausted)
  {
  }

  lemma FillOne(before: EvidenceMap, items: EvidenceMap, after: EvidenceMap, e: Evidence, bound: nat)
    requires Filled(before, items, after, bound)
    ensures var id := Id(e);
            var next := if id in after || |after| < bound then after[id := e] else after;
            Filled(before, items[id := e], next, bound)
  {
  }

  function Kept(was: EvidenceMap, shown: EvidenceMap, todo: set<EvidenceId>): EvidenceMap {
    map id | id in was && (id in todo || id in shown) :: was[id]
  }

  lemma KeepStep(was: EvidenceMap, shown: EvidenceMap, todo: set<EvidenceId>, id: EvidenceId)
    requires id in todo && id in was
    ensures Kept(was, shown, todo - {id})
         == if id in shown then Kept(was, shown, todo) else Kept(was, shown, todo) - {id}
    ensures id in Kept(was, shown, todo) && Kept(was, shown, todo)[id] == was[id]
  {
  }

  lemma KeptEnds(was: EvidenceMap, shown: EvidenceMap)
    requires shown.Keys <= was.Keys && forall id :: id in shown ==> shown[id] == was[id]
    ensures Kept(was, shown, was.Keys) == was && Kept(was, shown, {}) == shown
  {
  }

  /** Evidence of `same`, but for `todo`, was moved from the staged to the consumed map. */
  predicate MovedSoFar(same: EvidenceMap, todo: set<EvidenceId>, stagedBefore: EvidenceMap, consumedBefore: EvidenceMap,
                       staged: EvidenceMap, consumed: EvidenceMap)
  {
    staged == stagedBefore - (same.Keys - todo) && consumed == consumedBefore + (same - todo)
  }

  lemma MoveStep(same: EvidenceMap, todo: set<EvidenceId>, key: EvidenceId, stagedBefore: EvidenceMap,
                 consumedBefore: EvidenceMap, staged: EvidenceMap, consumed: EvidenceMap)
    requires key in todo && key in same
    requires MovedSoFar(same, todo, stagedBefore, consumedBefore, staged, consumed)
    ensures MovedSoFar(same, todo - {key}, stagedBefore, consumedBefore, staged - {key}, consumed[key := same[key]])
  {
    MoveOne(same, todo, key, stagedBefore, consumedBefore);
  }

  lemma MoveOne(same: EvidenceMap, todo: set<EvidenceId>, key: EvidenceId, staged: EvidenceMap, consumed: EvidenceMap)
    requires key in todo && key in same
    ensures consumed + (same - (todo - {key})) == (consumed + (same - todo))[key := same[key]]
    ensures staged - (same.Keys - (todo - {key})) == (staged - (same.Keys - todo)) - {key}
  {
  }

  lemma MoveEnds(same: EvidenceMap, stagedBefore: EvidenceMap, consumedBefore: EvidenceMap, staged: EvidenceMap,
                 consumed: EvidenceMap)
    ensures MovedSoFar(same, same.Keys, stagedBefore, consumedBefore, stagedBefore, consumedBefore)
    ensures MovedSoFar(same, {}, stagedBefore, consumedBefore, staged, consumed) ==>
              staged == stagedBefore - same.Keys && consumed == consumedBefore + same
  {
    assert same - {} == same && same.Keys - {} == same.Keys;
    assert same - same.Keys == map[] && same.Keys - same.Keys == {};
    assert consumedBefore + map[] == consumedBefore && stagedBefore - {} == stagedBefore;
  }

  lemma NothingStaged(before: EvidenceMap, items: EvidenceMap, todo: set<EvidenceId>, consumed: EvidenceMap,
                      exhausted: bool)
    requires items.Keys <= todo
    ensures StagedSoFar(before, items, todo, consumed, exhausted, before)
  {
  }

  lemma AllStaged(before: EvidenceMap, items: EvidenceMap, consumed: EvidenceMap, exhausted: bool, after: EvidenceMap)
    requires StagedSoFar(before, items, {}, consumed, exhausted, after)
    ensures Filled(before, Stageable(items, consumed, exhausted), after, RECOVERY_STAGED_BOUND)
  {
    assert items - {} == items;
  }

  /** `Stage` of the next item keeps the map filled. */
  lemma StageStep(before: EvidenceMap, items: EvidenceMap, after: EvidenceMap, todo: set<EvidenceId>, id: EvidenceId,
                  consumed: EvidenceMap, exhausted: bool)
    requires id in todo && (id in items ==> Id(items[id]) == id)
    requires StagedSoFar(before, items, todo, consumed, exhausted, after)
    ensures StagedSoFar(before, items, todo - {id}, consumed, exhausted,
                        if id in items then StagedWith(after, items[id], consumed, exhausted) else after)
  {
    StageableLess(items, todo, id, consumed, exhausted);
    if id in items && MayStage(items[id], consumed, exhausted) {
      FillOne(before, Stageable(items - todo, consumed, exhausted), after, items[id], RECOVERY_STAGED_BOUND);
    }
  }

  lemma NothingRemembered(shown: EvidenceMap, expired: EvidenceMap, running: EvidenceMap, todo: set<EvidenceId>)
    requires expired.Keys <= todo && running.Keys <= todo
    ensures RememberedSoFar(shown, expired, running, todo, shown)
  {
  }

  /** One observed mark taken into account. */
  lemma RememberStep(shown: EvidenceMap, expired: EvidenceMap, running: EvidenceMap, todo: set<EvidenceId>,
                     remembered: EvidenceMap, id: EvidenceId)
    requires RememberedSoFar(shown, expired, running, todo, remembered)
    requires id in expired ==> id !in running
    ensures RememberedSoFar(shown, expired, running, todo - {id}, Review(expired, running, remembered, id))
  {
    hide RememberedEntries;
    hide AllRemembered;
    hide Review;
    ReviewEntries(shown, expired, running, todo, remembered, id);
    if |remembered| <= RECOVERY_REMEMBERED_BOUND { ReviewSize(expired, running, remembered, id); }
    if |shown.Keys + running.Keys| <= RECOVERY_REMEMBERED_BOUND {
      ReviewAll(shown, expired, running, todo, remembered, id);
    }
  }

  lemma ReviewEntries(shown: EvidenceMap, expired: EvidenceMap, running: EvidenceMap, todo: set<EvidenceId>,
                      remembered: EvidenceMap, id: EvidenceId)
    requires RememberedEntries(shown, expired, running, todo, remembered)
    requires id in expired ==> id !in running
    ensures RememberedEntries(shown, expired, running, todo - {id}, Review(expired, running, remembered, id))
  {
  }

  lemma ReviewSize(expired: EvidenceMap, running: EvidenceMap, remembered: EvidenceMap, id: EvidenceId)
    requires |remembered| <= RECOVERY_REMEMBERED_BOUND
    ensures |Review(expired, running, remembered, id)| <= RECOVERY_REMEMBERED_BOUND
  {
    if id in expired { SubsetSize((remembered - {id}).Keys, remembered.Keys); }
  }

  lemma ReviewAll(shown: EvidenceMap, expired: EvidenceMap, running: EvidenceMap, todo: set<EvidenceId>,
                  remembered: EvidenceMap, id: EvidenceId)
    requires |shown.Keys + running.Keys| <= RECOVERY_REMEMBERED_BOUND
    requires RememberedEntries(shown, expired, running, todo, remembered) && AllRemembered(running, todo, remembered)
    requires id in expired ==> id !in running
    ensures AllRemembered(running, todo - {id}, Review(expired, running, remembered, id))
  {
    if id !in remembered && id in running {
      RememberedWithin(shown, expired, running, todo, remembered);
      assert |remembered.Keys + {id}| == |remembered| + 1;
      SubsetSize(remembered.Keys + {id}, shown.Keys + running.Keys);
    }
  }

  lemma RememberedWithin(shown: EvidenceMap, expired: EvidenceMap, running: EvidenceMap, todo: set<EvidenceId>,
                         remembered: EvidenceMap)
    requires RememberedEntries(shown, expired, running, todo, remembered)
    ensures remembered.Keys <= shown.Keys + running.Keys
  {
  }

  function Review(expired: EvidenceMap, running: EvidenceMap, remembered: EvidenceMap, id: EvidenceId): EvidenceMap {
    if id in expired then remembered - {id}
    else if id in running && (id in remembered || |remembered| < RECOVERY_REMEMBERED_BOUND)
    then remembered[id := running[id]]
    else remembered
  }

  lemma {:induction false} SubsetSize<T>(a: set<T>, b: set<T>)
    requires a <= b
    ensures |a| <= |b|
    decreases |a|
  {
    if a != {} {
      var x :| x in a;
      SubsetSize(a - {x}, b - {x});
    }
  }

  lemma RememberedDone(latch: Latch, read: RecoveryRead, remembered: EvidenceMap)
    requires RememberedSoFar(Shown(latch, read), Expired(latch, read), Running(latch, read), {}, remembered)
    ensures RememberedFollows(latch, read, remembered)
  {
    SubsetSize(Shown(latch, read).Keys, latch.remembered.Keys);
  }

  /** What is shown, but for `todo`, was taken into account. */
  predicate TakenSoFar(turned: Latch, read: RecoveryRead, before: EvidenceMap, todo: set<EvidenceId>,
                       remembered: EvidenceMap, staged: EvidenceMap)
  {
    && StagedSoFar(before, Expired(turned, read), todo, turned.consumed, turned.exhausted, staged)
    && RememberedSoFar(Shown(turned, read), Expired(turned, read), Running(turned, read), todo, remembered)
  }

  lemma NothingTaken(turned: Latch, read: RecoveryRead, before: EvidenceMap)
    ensures TakenSoFar(turned, read, before, Seen(read).Keys, Shown(turned, read), before)
  {
    SeenSplits(turned, read);
    hide Seen;
    hide Expired;
    hide Running;
    NothingStaged(before, Expired(turned, read), Seen(read).Keys, turned.consumed, turned.exhausted);
    NothingRemembered(Shown(turned, read), Expired(turned, read), Running(turned, read), Seen(read).Keys);
  }

  lemma TakeStep(turned: Latch, read: RecoveryRead, before: EvidenceMap, todo: set<EvidenceId>, id: EvidenceId,
                 remembered: EvidenceMap, staged: EvidenceMap)
    requires id in todo && id in Seen(read) && TakenSoFar(turned, read, before, todo, remembered, staged)
    ensures var e, rest := Seen(read)[id], todo - {id};
            && (id in turned.consumed ==> TakenSoFar(turned, read, before, rest, remembered, staged))
            && (id !in turned.consumed && e.until <= read.at ==>
                  TakenSoFar(turned, read, before, rest, remembered - {id},
                             StagedWith(staged, e, turned.consumed, turned.exhausted)))
            && (id !in turned.consumed && e.until > read.at ==>
                  TakenSoFar(turned, read, before, rest,
                             if id in remembered || |remembered| < RECOVERY_REMEMBERED_BOUND then remembered[id := e]
                             else remembered, staged))
  {
    var expired, running := Expired(turned, read), Running(turned, read);
    SeenAt(turned, read, id);
    hide Seen;
    hide Expired;
    hide Running;
    hide Shown;
    hide StagedWith;
    hide StagedSoFar;
    hide RememberedSoFar;
    StageStep(before, expired, staged, todo, id, turned.consumed, turned.exhausted);
    RememberStep(Shown(turned, read), expired, running, todo, remembered, id);
  }

  lemma AllTaken(turned: Latch, read: RecoveryRead, before: EvidenceMap, remembered: EvidenceMap, staged: EvidenceMap)
    requires TakenSoFar(turned, read, before, {}, remembered, staged)
    ensures RememberedFollows(turned, read, remembered)
    ensures Filled(before, Stageable(Expired(turned, read), turned.consumed, turned.exhausted), staged,
                   RECOVERY_STAGED_BOUND)
  {
    hide StagedSoFar;
    hide RememberedSoFar;
    hide Filled;
    AllStaged(before, Expired(turned, read), turned.consumed, turned.exhausted, staged);
    RememberedDone(turned, read, remembered);
  }

  // ---------------------------------------------------------------------
  // What every operation keeps
  // ---------------------------------------------------------------------

  lemma FilledSize(before: EvidenceMap, items: EvidenceMap, after: EvidenceMap, bound: nat)
    requires Filled(before, items, after, bound) && |before| <= bound
    ensures |after| <= bound
  {
  }

  lemma FilledKeyed(before: EvidenceMap, items: EvidenceMap, after: EvidenceMap, bound: nat)
    requires Filled(before, items, after, bound) && Keyed(before) && Keyed(items)
    ensures Keyed(after)
  {
  }

  lemma PartsKeyed(latch: Latch, read: RecoveryRead)
    requires Keyed(latch.remembered) && Keyed(latch.staged)
    ensures Keyed(Stageable(Lost(latch, read), latch.consumed, latch.exhausted))
    ensures Keyed(Stageable(Expired(latch, read), latch.consumed, latch.exhausted))
    ensures Keyed(Running(latch, read)) && Keyed(Shown(latch, read))
  {
    ObservedKeyed(read.view.snapshot.marks, read.view.bindings);
  }

  lemma SurvivingWithin(staged: EvidenceMap, read: RecoveryRead)
    ensures |Surviving(staged, read)| <= |staged|
    ensures Keyed(staged) ==> Keyed(Surviving(staged, read))
  {
    SubsetSize(Surviving(staged, read).Keys, staged.Keys);
  }

  lemma StagedKeepsWellformed(latch: Latch, read: RecoveryRead, mid: EvidenceMap, staged: EvidenceMap)
    requires Wellformed(latch) && StagedFollows(latch, read, mid, staged)
    ensures Keyed(staged) && |staged| <= RECOVERY_STAGED_BOUND
  {
    hide Filled;
    hide Keyed;
    hide Stageable;
    hide Lost;
    hide Expired;
    hide Surviving;
    var lost := Stageable(Lost(latch, read), latch.consumed, latch.exhausted);
    var expired := Stageable(Expired(latch, read), latch.consumed, latch.exhausted);
    PartsKeyed(latch, read);
    FilledKeyed(latch.staged, lost, mid, RECOVERY_STAGED_BOUND);
    FilledSize(latch.staged, lost, mid, RECOVERY_STAGED_BOUND);
    SurvivingWithin(mid, read);
    FilledKeyed(Surviving(mid, read), expired, staged, RECOVERY_STAGED_BOUND);
    FilledSize(Surviving(mid, read), expired, staged, RECOVERY_STAGED_BOUND);
  }

  lemma RememberedKeepsKeyed(latch: Latch, read: RecoveryRead, remembered: EvidenceMap)
    requires Keyed(latch.remembered) && Keyed(latch.staged) && RememberedFollows(latch, read, remembered)
    ensures Keyed(remembered)
  {
    hide Shown;
    hide Running;
    hide Expired;
    PartsKeyed(latch, read);
  }

  lemma AdoptKeepsWellformed(latch: Latch, read: RecoveryRead, next: Latch)
    requires Wellformed(latch) && Adopts(latch, read, next)
    ensures Wellformed(next)
  {
    hide StagedFollows;
    hide RememberedSoFar;
    hide Keyed;
    var turned := Turned(latch, read);
    NothingKeyed();
    var mid :| StagedFollows(turned, read, mid, next.staged);
    StagedKeepsWellformed(turned, read, mid, next.staged);
    RememberedKeepsKeyed(turned, read, next.remembered);
  }

  lemma NothingKeyed()
    ensures Keyed(map[])
  {
  }

  lemma ConsumeKeepsWellformed(latch: Latch, e: RecoveryEvidence)
    requires Wellformed(latch)
    ensures Wellformed(Consumed(latch, e))
  {
    hide Bounded;
    ConsumedBounds(latch, e);
  }

  lemma ConsumedBounds(latch: Latch, e: RecoveryEvidence)
    requires Bounded(latch)
    ensures Bounded(Consumed(latch, e))
  {
    hide Consumable;
    hide OfAccount;
    var same := OfAccount(latch.staged, e.evidence.account);
    SubsetSize((latch.staged - same.Keys).Keys, latch.staged.Keys);
    ConsumedSize(latch.consumed, same);
  }

  lemma ConsumedSize(consumed: EvidenceMap, same: EvidenceMap)
    ensures |consumed + same| <= |consumed| + |same|
  {
    assert (consumed + same).Keys == consumed.Keys + same.Keys;
  }

  // ---------------------------------------------------------------------
  // The class
  // ---------------------------------------------------------------------

  class LimitRecoveryLatch {
    var generation: Option<string>
    var issued: nat
    var adopted: nat
    var remembered: EvidenceMap
    var staged: EvidenceMap
    var consumed: EvidenceMap
    var exhausted: bool

    function State(): Latch
      reads this
    {
      Latch(generation, issued, adopted, remembered, staged, consumed, exhausted)
    }

    predicate Valid()
      reads this
    {
      Wellformed(State())
    }

    lemma StateParts()
      ensures State().remembered == remembered && State().staged == staged
    {
    }

    constructor ()
      ensures Valid() && State() == EMPTY_LATCH
    {
      generation, issued, adopted, exhausted := None, 0, 0, false;
      remembered, staged, consumed := map[], map[], map[];
    }

    method Capture(view: View, at: int) returns (read: RecoveryRead)
      requires Valid()
      modifies this`issued
      ensures Valid()
      ensures issued == old(issued) + 1 && read == RecoveryRead(issued, view, at)
    {
      issued := issued + 1;
      return RecoveryRead(issued, view, at);
    }

    method Adopt(read: RecoveryRead, current: Namespace) returns (taken: bool)
      requires Valid()
      modifies this
      ensures Valid()
      ensures taken == Adoptable(old(State()), read, current)
      ensures if taken then Adopts(old(State()), read, State()) else State() == old(State())
    {
      if read.token <= adopted || !read.view.authoritative || read.view.degradedAgreement
         || read.view.snapshot.namespace != current.namespace
         || read.view.snapshot.generation != current.generation
         || read.view.snapshot.revision != current.revision
      {
        return false;
      }
      adopted := read.token;
      if generation != Some(read.view.snapshot.generation) {
        generation := Some(read.view.snapshot.generation);
        remembered, staged, consumed := map[], map[], map[];
      }
      ghost var turned := State();
      assert turned == Turned(old(State()), read);
      var observed := Observe(read.view);
      ReviewRemembered(read, observed);
      ghost var mid := staged;
      ReviewStaged(read, observed);
      TakeObserved(read, observed, turned);
      assert StagedFollows(turned, read, mid, staged);
      assert Adopts(turned, read, State());
      assert Adopts(old(State()), read, State());
      AdoptKeepsWellformed(old(State()), read, State());
      return true;
    }

    /** Collects the view's rate-limit marks on bound accounts. */
    method Observe(view: View) returns (observed: EvidenceMap)
      ensures observed == Observed(view.snapshot.marks, view.bindings)
    {
      observed := map[];
      var marks := view.snapshot.marks;
      var i := 0;
      hide Observed;
      hide ObservedEntries;
      hide ObservedSoFar;
      hide EntriesSoFar;
      ObserveStart(marks, view.bindings);
      while i < |marks|
        invariant 0 <= i <= |marks|
        invariant observed == ObservedSoFar(marks, view.bindings, i)
      {
        var mark := marks[i];
        ObserveStep(marks, view.bindings, i);
        i := i + 1;
        if mark.key.window != "account" || mark.key.scope != "pool" { continue; }
        if mark.key.account !in view.bindings { continue; }
        ghost var before := observed;
        var j := 0;
        EntriesStart(mark.key.account, mark.entries, before);
        while j < |mark.entries|
          invariant 0 <= j <= |mark.entries|
          invariant observed == EntriesSoFar(mark.key.account, mark.entries, j, before)
        {
          var entry := mark.entries[j];
          EntriesStep(mark.key.account, mark.entries, j, before);
          j := j + 1;
          if entry.cause != "rate-limit" { continue; }
          var evidence := Evidence(mark.key.account, entry.until, entry.evidenceAt, entry.committedRevision);
          observed := observed[Id(evidence) := evidence];
        }
      }
    }

    /** Puts evidence in line for the next probe, unless it is spent, outdone or there is no room. */
    method Stage(evidence: Evidence)
      modifies this`staged
      ensures staged == StagedWith(old(staged), evidence, consumed, exhausted)
    {
      var id := Id(evidence);
      if id in consumed || exhausted { return; }
      var until, evidenceAt := None, None;
      var todo := consumed.Keys;
      while todo != {}
        invariant todo <= consumed.Keys
        invariant LargestAmong(consumed, todo, evidence.account, until, evidenceAt)
        decreases |todo|
      {
        var key :| key in todo;
        todo := todo - {key};
        var previous := consumed[key];
        if previous.account != evidence.account { continue; }
        until := Some(if until.None? || previous.until > until.value then previous.until else until.value);
        evidenceAt := Some(if evidenceAt.None? || previous.evidenceAt > evidenceAt.value
                           then previous.evidenceAt else evidenceAt.value);
      }
      assert Dominated(evidence, consumed) <==>
             until.Some? && evidence.until <= until.value && evidence.evidenceAt <= evidenceAt.value;
      if until.Some? && evidence.until <= until.value && evidence.evidenceAt <= evidenceAt.value { return; }
      if id in staged || |staged| < RECOVERY_STAGED_BOUND {
        staged := staged[id := evidence];
      }
    }

    /** The largest values among the account's consumed evidence outside `todo`. */
    ghost predicate LargestAmong(consumed: EvidenceMap, todo: set<EvidenceId>, account: AccountKey,
                            until: Option<int>, evidenceAt: Option<int>)
    {
      && (until.Some? <==> evidenceAt.Some?)
      && (forall id :: id in consumed && id !in todo && consumed[id].account == account ==>
            until.Some? && consumed[id].until <= until.value && consumed[id].evidenceAt <= evidenceAt.value)
      && (until.Some? ==>
            && (exists id :: id in consumed && consumed[id].account == account && consumed[id].until == until.value)
            && (exists id :: id in consumed && consumed[id].account == account
                             && consumed[id].evidenceAt == evidenceAt.value))
    }

    /** First pass: drops remembered marks that are unbound or no longer shown, staging those that were lost. */
    method ReviewRemembered(read: RecoveryRead, observed: EvidenceMap)
      requires observed == Seen(read) && Keyed(remembered)
      modifies this`remembered, this`staged
      ensures remembered == Shown(old(State()), read)
      ensures Filled(old(staged), Stageable(Lost(old(State()), read), consumed, exhausted), staged,
                     RECOVERY_STAGED_BOUND)
    {
      ghost var before := State();
      ghost var was, stagedBefore := remembered, staged;
      hide *;
      ghost var lost, shown := Lost(before, read), Shown(before, read);
      StateParts();
      var todo := remembered.Keys;
      WithinRemembered(before, read);
      KeptEnds(was, shown);
      NothingStaged(stagedBefore, lost, todo, consumed, exhausted);
      while todo != {}
        invariant todo <= was.Keys
        invariant remembered == Kept(was, shown, todo)
        invariant StagedSoFar(stagedBefore, lost, todo, consumed, exhausted, staged)
        decreases |todo|
      {
        var id :| id in todo;
        KeepStep(was, shown, todo, id);
        var evidence := remembered[id];
        RememberedAt(before, read, id);
        StageStep(stagedBefore, lost, staged, todo, id, consumed, exhausted);
        todo := todo - {id};
        if evidence.account !in read.view.bindings {
          remembered := remembered - {id};
          continue;
        }
        if id in observed { continue; }
        var cleared := Cleared(read.view.snapshot.tombstones, evidence);
        remembered := remembered - {id};
        if !cleared && evidence.until <= read.at {
          Stage(evidence);
        }
      }
      AllStaged(stagedBefore, lost, consumed, exhausted, staged);
    }

    /** Second pass: drops staged evidence that is unbound, or not shown and covered by a tombstone. */
    method ReviewStaged(read: RecoveryRead, observed: EvidenceMap)
      requires observed == Seen(read)
      modifies this`staged
      ensures staged == Surviving(old(staged), read)
    {
      ghost var before := staged;
      var todo := staged.Keys;
      while todo != {}
        invariant todo <= before.Keys
        invariant staged == map id | id in before && (id in todo || id in Surviving(before, read)) :: before[id]
        decreases |todo|
      {
        var id :| id in todo;
        var evidence := staged[id];
        todo := todo - {id};
        if evidence.account !in read.view.bindings {
          staged := staged - {id};
        } else if id !in observed && Cleared(read.view.snapshot.tombstones, evidence) {
          staged := staged - {id};
        }
      }
    }

    /** Third pass: marks shown expired are staged, the others remembered. */
    method TakeObserved(read: RecoveryRead, observed: EvidenceMap, ghost turned: Latch)
      requires observed == Seen(read)
      requires remembered == Shown(turned, read) && consumed == turned.consumed && exhausted == turned.exhausted
      modifies this`remembered, this`staged
      ensures RememberedFollows(turned, read, remembered)
      ensures Filled(old(staged), Stageable(Expired(turned, read), consumed, exhausted), staged,
                     RECOVERY_STAGED_BOUND)
    {
      ghost var before := staged;
      hide *;
      var todo := observed.Keys;
      NothingTaken(turned, read, before);
      while todo != {}
        invariant todo <= observed.Keys
        invariant TakenSoFar(turned, read, before, todo, remembered, staged)
        decreases |todo|
      {
        var id :| id in todo;
        var evidence := observed[id];
        TakeStep(turned, read, before, todo, id, remembered, staged);
        todo := todo - {id};
        if id in consumed { continue; }
        if evidence.until <= read.at {
          remembered := remembered - {id};
          Stage(evidence);
        } else if id in remembered || |remembered| < RECOVERY_REMEMBERED_BOUND {
          remembered := remembered[id := evidence];
        }
      }
      AllTaken(turned, read, before, remembered, staged);
    }

    /** The evidence the account's next successful probe may use. */
    method Candidate(account: AccountKey, now: int) returns (result: Option<RecoveryEvidence>)
      requires Valid()
      ensures result.Some? ==>
                && !exhausted && generation == Some(result.value.generation)
                && IsCandidate(State(), account, now, result.value.evidence)
      ensures !exhausted && generation.Some?
              && (exists id :: id in staged && staged[id].account == account && staged[id].until <= now)
              ==> result.Some?
    {
      if exhausted || generation.None? { return None; }
      var best: Option<Evidence> := None;
      var todo := staged.Keys;
      while todo != {}
        invariant todo <= staged.Keys
        invariant best.Some? ==> exists id :: id in staged && staged[id] == best.value
        invariant best.Some? ==> best.value.account == account && best.value.until <= now
        invariant forall id ::
                    id in staged && id !in todo && staged[id].account == account && staged[id].until <= now ==>
                    best.Some? && AtMost(staged[id], best.value)
        decreases |todo|
      {
        var id :| id in todo;
        todo := todo - {id};
        var evidence := staged[id];
        if evidence.account != account || evidence.until > now { continue; }
        if best.None? || evidence.until > best.value.until
           || (evidence.until == best.value.until && evidence.evidenceAt > best.value.evidenceAt)
        {
          best := Some(evidence);
        }
      }
      if best.None? { return None; }
      return Some(RecoveryEvidence(best.value, generation.value));
    }

    method Consume(e: RecoveryEvidence) returns (used: bool)
      requires Valid()
      modifies this
      ensures Valid()
      ensures State() == Consumed(old(State()), e)
      ensures used == (Consumable(old(State()), e) && Fits(old(State()), e))
    {
      ConsumeKeepsWellformed(State(), e);
      var id := Id(e.evidence);
      if exhausted || generation != Some(e.generation) || id !in staged || id in consumed { return false; }
      var sameAccount := OfAccount(staged, e.evidence.account);
      if |consumed| + |sameAccount| > RECOVERY_CONSUMED_BOUND {
        exhausted := true;
        staged := map[];
        return false;
      }
      MarkConsumed(sameAccount);
      return true;
    }

    /** Moves staged evidence to the consumed map, piece by piece. */
    method MarkConsumed(same: EvidenceMap)
      modifies this`staged, this`consumed
      ensures staged == old(staged) - same.Keys && consumed == old(consumed) + same
    {
      ghost var stagedBefore, consumedBefore := staged, consumed;
      hide *;
      MoveEnds(same, stagedBefore, consumedBefore, staged, consumed);
      var todo := same.Keys;
      while todo != {}
        invariant todo <= same.Keys
        invariant MovedSoFar(same, todo, stagedBefore, consumedBefore, staged, consumed)
        decreases |todo|
      {
        var key :| key in todo;
        MoveStep(same, todo, key, stagedBefore, consumedBefore, staged, consumed);
        todo := todo - {key};
        consumed := consumed[key := same[key]];
        staged := staged - {key};
      }
      MoveEnds(same, stagedBefore, consumedBefore, staged, consumed);
    }
  }
}
