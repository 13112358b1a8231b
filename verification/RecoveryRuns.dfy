/**
 Every run of the limit recovery latch: reads captured at a clock that does not go back, adopted
 later in any order or not at all, and evidence consumed in between.
 */
module RecoveryRuns {
  import opened Options
  import opened RecoveryLatch

  /** A successful use of evidence, in the given stretch of one generation. */
  datatype Use = Use(stretch: nat, id: EvidenceId)

  /**
   The latch with what its callers did: `captured` are the reads taken, `lastAt` is the time of the last one
   adopted, `history` lists the generations the latch went through and `uses` the successful uses.
   */
  datatype World = World(
    latch: Latch,
    clock: int,
    captured: set<RecoveryRead>,
    lastAt: int,
    history: seq<string>,
    uses: seq<Use>)

  datatype Action =
    | Tick(to: int)
    | Capture(view: View)
    | Adopt(read: RecoveryRead, current: Namespace)
    | Consume(evidence: RecoveryEvidence)

  ghost predicate Starts(w: World) {
    w == World(EMPTY_LATCH, w.clock, {}, w.lastAt, [], []) && w.lastAt <= w.clock
  }

  ghost predicate Step(w: World, action: Action, next: World) {
    match action
    case Tick(to) => to >= w.clock && next == w.(clock := to)
    case Capture(view) =>
      next == w.(latch := w.latch.(issued := w.latch.issued + 1),
                 captured := w.captured + {RecoveryRead(w.latch.issued + 1, view, w.clock)})
    case Adopt(read, current) =>
      && read in w.captured
      && if Adoptable(w.latch, read, current)
         then Adopts(w.latch, read, next.latch)
              && next == w.(latch := next.latch, lastAt := read.at,
                            history := Entered(w, read.view.snapshot.generation))
         else next == w
    case Consume(evidence) =>
      next == w.(latch := Consumed(w.latch, evidence),
                 uses := if Used(w.latch, evidence) then w.uses + [Use(|w.history|, Id(evidence.evidence))] else w.uses)
  }

  /** `consume` answers yes. */
  ghost predicate Used(latch: Latch, e: RecoveryEvidence) {
    Consumable(latch, e) && Fits(latch, e)
  }

  function Entered(w: World, generation: string): seq<string> {
    if w.latch.generation == Some(generation) then w.history else w.history + [generation]
  }

  ghost predicate Run(trace: seq<World>, actions: seq<Action>) {
    && |trace| == |actions| + 1
    && forall i :: 0 <= i < |actions| ==> Step(trace[i], actions[i], trace[i + 1])
  }

  // ---------------------------------------------------------------------
  // The invariant
  // ---------------------------------------------------------------------

  /** Evidence waiting for a probe: run out by `at`, unspent and not outdone by spent evidence. */
  ghost predicate Waiting(staged: EvidenceMap, consumed: EvidenceMap, exhausted: bool, at: int) {
    Keyed(staged) && forall id :: id in staged ==> id.until <= at && MayStage(staged[id], consumed, exhausted)
  }

  ghost predicate StillRunning(m: EvidenceMap, at: int) {
    forall id :: id in m ==> id.until > at
  }

  ghost predicate RunOut(m: EvidenceMap, at: int) {
    forall id :: id in m ==> id.until <= at
  }

  ghost predicate LatchInv(latch: Latch, at: int) {
    && Wellformed(latch)
    && Waiting(latch.staged, latch.consumed, latch.exhausted, at)
    && StillRunning(latch.remembered, at)
    && RunOut(latch.consumed, at)
  }

  ghost predicate ClockInv(w: World) {
    && w.lastAt <= w.clock
    && w.latch.adopted <= w.latch.issued
    && (forall r :: r in w.captured ==> r.at <= w.clock && r.token <= w.latch.issued)
    && (forall r :: r in w.captured && r.token > w.latch.adopted ==> w.lastAt <= r.at)
    && (forall r, q :: r in w.captured && q in w.captured && r.token <= q.token ==> r.at <= q.at)
  }

  ghost predicate HistoryInv(w: World) {
    && w.latch.generation == (if w.history == [] then None else Some(w.history[|w.history| - 1]))
    && (w.history == [] ==> w.latch.staged == map[] && w.latch.consumed == map[])
    && forall i, j :: 0 <= i < j < |w.history| && j == i + 1 ==> w.history[i] != w.history[j]
  }

  /** The later use of an account's evidence exceeds the earlier one. */
  ghost predicate Exceeds(later: EvidenceId, earlier: EvidenceId) {
    later.until > earlier.until || later.evidenceAt > earlier.evidenceAt
  }

  ghost predicate UsesInv(w: World) {
    && (forall i :: 0 <= i < |w.uses| ==>
          && 0 < w.uses[i].stretch <= |w.history|
          && (w.uses[i].stretch == |w.history| ==> w.uses[i].id in w.latch.consumed))
    && (forall i, j :: 0 <= i < j < |w.uses| ==>
          && w.uses[i].stretch <= w.uses[j].stretch
          && (w.uses[i].stretch == w.uses[j].stretch && w.uses[i].id.account == w.uses[j].id.account ==>
                Exceeds(w.uses[j].id, w.uses[i].id)))
  }

  ghost predicate Inv(w: World) {
    LatchInv(w.latch, w.lastAt) && ClockInv(w) && HistoryInv(w) && UsesInv(w)
  }

  // ---------------------------------------------------------------------
  // Adopting
  // ---------------------------------------------------------------------

  lemma FilledWaits(before: EvidenceMap, items: EvidenceMap, after: EvidenceMap, consumed: EvidenceMap,
                    exhausted: bool, at: int, bound: nat)
    requires Filled(before, items, after, bound)
    requires Waiting(before, consumed, exhausted, at) && Waiting(items, consumed, exhausted, at)
    ensures Waiting(after, consumed, exhausted, at)
  {
  }

  lemma StageableWaits(items: EvidenceMap, consumed: EvidenceMap, exhausted: bool, at: int)
    requires Keyed(items) && forall id :: id in items ==> id.until <= at
    ensures Waiting(Stageable(items, consumed, exhausted), consumed, exhausted, at)
  {
  }

  lemma PartsOfSeen(latch: Latch, read: RecoveryRead)
    requires Keyed(latch.remembered)
    ensures Keyed(Lost(latch, read)) && Keyed(Expired(latch, read)) && Keyed(Running(latch, read))
    ensures forall id :: id in Lost(latch, read) ==> id.until <= read.at
    ensures forall id :: id in Expired(latch, read) ==> id.until <= read.at
    ensures forall id :: id in Running(latch, read) ==> id.until > read.at
  {
    ObservedKeyed(read.view.snapshot.marks, read.view.bindings);
  }

  lemma SurvivingWaits(staged: EvidenceMap, read: RecoveryRead, consumed: EvidenceMap, exhausted: bool, at: int)
    requires Waiting(staged, consumed, exhausted, at)
    ensures Waiting(Surviving(staged, read), consumed, exhausted, at)
    ensures |Surviving(staged, read)| <= |staged|
  {
    SubsetSize(Surviving(staged, read).Keys, staged.Keys);
  }

  lemma AdoptedStaged(latch: Latch, read: RecoveryRead, mid: EvidenceMap, staged: EvidenceMap, at: int)
    requires LatchInv(latch, at) && at <= read.at
    requires StagedFollows(latch, read, mid, staged)
    ensures Waiting(staged, latch.consumed, latch.exhausted, read.at)
  {
    hide Filled;
    hide Stageable;
    hide Lost;
    hide Expired;
    hide Surviving;
    var lost, expired := Lost(latch, read), Expired(latch, read);
    PartsOfSeen(latch, read);
    StageableWaits(lost, latch.consumed, latch.exhausted, read.at);
    StageableWaits(expired, latch.consumed, latch.exhausted, read.at);
    FilledWaits(latch.staged, Stageable(lost, latch.consumed, latch.exhausted), mid, latch.consumed, latch.exhausted,
                read.at, RECOVERY_STAGED_BOUND);
    SurvivingWaits(mid, read, latch.consumed, latch.exhausted, read.at);
    FilledWaits(Surviving(mid, read), Stageable(expired, latch.consumed, latch.exhausted), staged, latch.consumed,
                latch.exhausted, read.at, RECOVERY_STAGED_BOUND);
  }

  /** After a read is adopted, what is remembered is exactly in what that read shows still running. */
  lemma {:induction false} AdoptedRemembered(latch: Latch, read: RecoveryRead, remembered: EvidenceMap, at: int)
    requires LatchInv(latch, at) && at <= read.at
    requires RememberedFollows(latch, read, remembered)
    ensures forall id :: id in remembered ==> id in Running(latch, read) && remembered[id] == Running(latch, read)[id]
    ensures StillRunning(remembered, read.at)
  {
    ObservedKeyed(read.view.snapshot.marks, read.view.bindings);
  }

  lemma TurnedKeeps(latch: Latch, read: RecoveryRead, at: int)
    requires LatchInv(latch, at)
    ensures LatchInv(Turned(latch, read), at)
  {
  }

  lemma AdoptKeepsLatch(latch: Latch, read: RecoveryRead, next: Latch, at: int)
    requires LatchInv(latch, at) && at <= read.at && Adopts(latch, read, next)
    ensures LatchInv(next, read.at)
  {
    hide RememberedFollows;
    hide StagedFollows;
    hide Wellformed;
    hide Waiting;
    hide RunOut;
    hide StillRunning;
    var turned := Turned(latch, read);
    TurnedKeeps(latch, read, at);
    RunOutLater(turned.consumed, at, read.at);
    AdoptKeepsWellformed(latch, read, next);
    var mid :| StagedFollows(turned, read, mid, next.staged);
    AdoptedStaged(turned, read, mid, next.staged, at);
    AdoptedRemembered(turned, read, next.remembered, at);
  }

  lemma RunOutLater(m: EvidenceMap, at: int, later: int)
    requires RunOut(m, at) && at <= later
    ensures RunOut(m, later)
  {
  }

  lemma AdoptKeepsInv(w: World, read: RecoveryRead, current: Namespace, next: World)
    requires Inv(w) && Step(w, Action.Adopt(read, current), next)
    ensures Inv(next)
  {
    hide LatchInv;
    hide RememberedFollows;
    hide StagedFollows;
    if Adoptable(w.latch, read, current) {
      AdoptKeepsLatch(w.latch, read, next.latch, w.lastAt);
      if next.history == w.history {
        assert next.latch.consumed == w.latch.consumed;
      }
    }
  }

  // ---------------------------------------------------------------------
  // Consuming
  // ---------------------------------------------------------------------

  /** Using up an account's evidence leaves nothing staged that it outdoes. */
  lemma ConsumeKeepsLatch(latch: Latch, e: RecoveryEvidence, at: int)
    requires LatchInv(latch, at)
    ensures LatchInv(Consumed(latch, e), at)
  {
    hide Waiting;
    hide Keyed;
    hide OfAccount;
    hide RunOut;
    hide StillRunning;
    hide Consumable;
    hide Fits;
    hide Bounded;
    ConsumeKeepsWellformed(latch, e);
    MovedWaits(latch.staged, latch.consumed, latch.exhausted, e.evidence.account, at);
    NothingWaits(latch.consumed, at);
  }

  lemma NothingWaits(consumed: EvidenceMap, at: int)
    ensures Waiting(map[], consumed, true, at)
  {
  }

  lemma MovedWaits(staged: EvidenceMap, consumed: EvidenceMap, exhausted: bool, account: AccountKey, at: int)
    requires Waiting(staged, consumed, exhausted, at) && Keyed(consumed)
    requires RunOut(consumed, at)
    ensures var same := OfAccount(staged, account);
            && Waiting(staged - same.Keys, consumed + same, exhausted, at)
            && Keyed(consumed + same) && RunOut(consumed + same, at)
  {
    hide Dominated;
    var same := OfAccount(staged, account);
    forall id | id in staged - same.Keys ensures !Dominated(staged[id], consumed + same) {
      OthersUnaffected(staged[id], consumed, same, account);
    }
  }

  /** Spending one account's evidence does not outdo another's. */
  lemma OthersUnaffected(e: Evidence, consumed: EvidenceMap, same: EvidenceMap, account: AccountKey)
    requires e.account != account && forall id :: id in same ==> same[id].account == account
    requires Keyed(consumed) && Keyed(same)
    ensures Dominated(e, consumed + same) ==> Dominated(e, consumed)
  {
  }

  lemma ConsumeKeepsInv(w: World, e: RecoveryEvidence, next: World)
    requires Inv(w) && Step(w, Action.Consume(e), next)
    ensures Inv(next)
  {
    hide LatchInv;
    hide Consumed;
    hide Used;
    ConsumeKeepsLatch(w.latch, e, w.lastAt);
    ConsumedKeeps(w.latch, e, w.lastAt);
    if Used(w.latch, e) {
      forall i | 0 <= i < |w.uses| && w.uses[i].stretch == |w.history| && w.uses[i].id.account == e.evidence.account
        ensures Exceeds(Id(e.evidence), w.uses[i].id)
      {
        UndominatedExceeds(w.latch, e, w.lastAt, w.uses[i].id);
      }
    }
  }

  lemma ConsumedKeeps(latch: Latch, e: RecoveryEvidence, at: int)
    requires LatchInv(latch, at)
    ensures var next := Consumed(latch, e);
            && next.(staged := latch.staged, consumed := latch.consumed, exhausted := latch.exhausted) == latch
            && (forall id :: id in latch.consumed ==> id in next.consumed)
            && (latch.staged == map[] ==> next == latch)
            && (Used(latch, e) ==> latch.generation.Some? && latch.staged != map[] && Id(e.evidence) in next.consumed)
  {
    hide Dominated;
    hide Bounded;
    if Used(latch, e) {
      assert Id(e.evidence) in OfAccount(latch.staged, e.evidence.account);
    }
  }

  /** Staged evidence exceeds every spent evidence of its account. */
  lemma UndominatedExceeds(latch: Latch, e: RecoveryEvidence, at: int, spent: EvidenceId)
    requires LatchInv(latch, at) && Used(latch, e)
    requires spent in latch.consumed && spent.account == e.evidence.account
    ensures Exceeds(Id(e.evidence), spent)
  {
    assert latch.consumed[spent].account == spent.account;
  }

  lemma {:induction false} StepKeepsInv(w: World, action: Action, next: World)
    requires Inv(w) && Step(w, action, next)
    ensures Inv(next)
  {
    hide Adopts;
    hide Waiting;
    hide Keyed;
    match action
    case Adopt(read, current) => AdoptKeepsInv(w, read, current, next);
    case Consume(e) => ConsumeKeepsInv(w, e, next);
    case Tick(_) =>
    case Capture(_) =>
  }

  lemma {:induction false} RunKeepsInv(trace: seq<World>, actions: seq<Action>, i: nat)
    requires Run(trace, actions) && Inv(trace[0]) && i < |trace|
    ensures Inv(trace[i])
    decreases i
  {
    hide Inv;
    hide Step;
    if i > 0 {
      RunKeepsInv(trace, actions, i - 1);
      StepKeepsInv(trace[i - 1], actions[i - 1], trace[i]);
    }
  }

  // ---------------------------------------------------------------------
  // Main results
  // ---------------------------------------------------------------------

  /**
   In every reachable state the maps stay within their bounds and pairwise disjoint, and every staged
   entry exceeds its account's spent evidence.
   */
  lemma ReachableLatch(trace: seq<World>, actions: seq<Action>, i: nat)
    requires Run(trace, actions) && Starts(trace[0]) && i < |trace|
    ensures var latch := trace[i].latch;
            && |latch.remembered| <= 256 && |latch.staged| <= 256 && |latch.consumed| <= 1024
            && latch.remembered.Keys !! latch.staged.Keys
            && latch.remembered.Keys !! latch.consumed.Keys
            && latch.staged.Keys !! latch.consumed.Keys
            && (forall id, spent :: id in latch.staged && spent in latch.consumed && spent.account == id.account ==>
                  Exceeds(id, spent))
            && (latch.exhausted ==> latch.staged == map[])
  {
    RunKeepsInv(trace, actions, i);
    var latch := trace[i].latch;
    forall id, spent | id in latch.staged && spent in latch.consumed && spent.account == id.account
      ensures Exceeds(id, spent)
    {
      assert latch.staged[id].account == latch.consumed[spent].account;
      assert !Dominated(latch.staged[id], latch.consumed);
    }
  }

  /** A later use of an account's evidence exceeds the earlier one while the latch stays with one generation. */
  lemma LaterUseExceeds(trace: seq<World>, actions: seq<Action>, k: nat, i: nat, j: nat)
    requires Run(trace, actions) && Starts(trace[0]) && k < |trace|
    requires i < j < |trace[k].uses|
    ensures var uses := trace[k].uses;
            uses[i].stretch == uses[j].stretch && uses[i].id.account == uses[j].id.account ==>
              Exceeds(uses[j].id, uses[i].id)
  {
    RunKeepsInv(trace, actions, k);
  }

  /** The generation under which evidence was used. */
  ghost function GenerationOf(w: World, i: nat): (generation: string)
    requires UsesInv(w) && i < |w.uses|
  {
    w.history[w.uses[i].stretch - 1]
  }

  /** No evidence is used twice in one generation, unless the latch left that generation and came back to it. */
  lemma UsedTwiceOnlyAcrossGenerations(trace: seq<World>, actions: seq<Action>, k: nat, i: nat, j: nat)
    requires Run(trace, actions) && Starts(trace[0]) && k < |trace|
    requires i < j < |trace[k].uses|
    ensures UsesInv(trace[k])
    ensures trace[k].uses[i].id == trace[k].uses[j].id && GenerationOf(trace[k], i) == GenerationOf(trace[k], j) ==>
              LeftBetween(trace[k], i, j)
  {
    RunKeepsInv(trace, actions, k);
    SameUseLeaves(trace[k], i, j);
  }

  /** Between the two uses the latch went through another generation than that of the first. */
  ghost predicate LeftBetween(w: World, i: nat, j: nat)
    requires UsesInv(w) && i < j < |w.uses|
  {
    exists between :: w.uses[i].stretch <= between < w.uses[j].stretch - 1
                      && w.history[between] != GenerationOf(w, i)
  }

  lemma SameUseLeaves(w: World, i: nat, j: nat)
    requires Inv(w) && i < j < |w.uses|
    ensures w.uses[i].id == w.uses[j].id && GenerationOf(w, i) == GenerationOf(w, j) ==> LeftBetween(w, i, j)
  {
    if w.uses[i].id == w.uses[j].id && GenerationOf(w, i) == GenerationOf(w, j) {
      var before := w.uses[i].stretch - 1;
      assert w.history[before] != w.history[before + 1];
    }
  }

  /** Once exhausted, the latch stages nothing and lets nothing be used, whatever generation follows. */
  lemma {:induction false} ExhaustionIsFinal(trace: seq<World>, actions: seq<Action>, i: nat, j: nat)
    requires Run(trace, actions) && Inv(trace[0]) && i <= j < |trace|
    requires trace[i].latch.exhausted
    ensures trace[j].latch.exhausted && trace[j].latch.staged == map[] && trace[j].uses == trace[i].uses
    decreases j
  {
    hide Step;
    hide LatchInv;
    hide ClockInv;
    hide HistoryInv;
    hide UsesInv;
    if i < j {
      ExhaustionIsFinal(trace, actions, i, j - 1);
      StaysExhausted(trace[j - 1], actions[j - 1], trace[j]);
    }
    RunKeepsInv(trace, actions, j);
    NothingStagedWhenExhausted(trace[j].latch, trace[j].lastAt);
  }

  lemma StaysExhausted(w: World, action: Action, next: World)
    requires Step(w, action, next) && w.latch.exhausted
    ensures next.latch.exhausted && next.uses == w.uses
  {
    hide RememberedFollows;
    hide StagedFollows;
  }

  lemma NothingStagedWhenExhausted(latch: Latch, at: int)
    requires LatchInv(latch, at) && latch.exhausted
    ensures latch.staged == map[]
  {
  }

  /**
   A remembered mark that ran out and vanished is staged, while its account is bound and no tombstone
   covers it, unless spent evidence outdoes it, the latch is exhausted or there is no room for all
   that may be staged with it.
   */
  lemma {:induction false} LostIsStaged(latch: Latch, read: RecoveryRead, next: Latch, at: int, id: EvidenceId)
    requires LatchInv(latch, at) && at <= read.at && Adopts(latch, read, next)
    requires latch.generation == Some(read.view.snapshot.generation)
    requires id in latch.remembered && id !in Seen(read)
    requires id.account in read.view.bindings && !Gone(read, latch.remembered[id]) && id.until <= read.at
    ensures id in next.staged || latch.exhausted || Dominated(latch.remembered[id], latch.consumed)
         || |latch.staged.Keys + Stageable(Lost(latch, read), latch.consumed, latch.exhausted).Keys|
              > RECOVERY_STAGED_BOUND
  {
    hide RememberedFollows;
    var lost := Stageable(Lost(latch, read), latch.consumed, latch.exhausted);
    var turned := Turned(latch, read);
    assert Lost(turned, read) == Lost(latch, read);
    assert id in Lost(latch, read);
    var mid :| StagedFollows(turned, read, mid, next.staged);
    if |latch.staged.Keys + lost.Keys| <= RECOVERY_STAGED_BOUND && id in lost {
      FilledWithRoom(latch.staged, lost, mid, latch.staged.Keys + lost.Keys, id);
    }
  }

  lemma FilledWithRoom(before: EvidenceMap, items: EvidenceMap, after: EvidenceMap, room: set<EvidenceId>,
                       id: EvidenceId)
    requires Filled(before, items, after, RECOVERY_STAGED_BOUND)
    requires before.Keys + items.Keys <= room && |room| <= RECOVERY_STAGED_BOUND && id in items
    ensures id in after
  {
    if id !in after { SubsetSize(after.Keys + {id}, room); }
  }

  /** Evidence is staged only for a mark that ran out, and stays only while bound and not cleared. */
  lemma {:induction false} StagedOnlyFromExpired(latch: Latch, read: RecoveryRead, next: Latch, id: EvidenceId)
    requires Adopts(latch, read, next) && id in next.staged
    ensures var turned := Turned(latch, read);
            || id in Expired(turned, read)
            || (id in Lost(turned, read) + turned.staged && Bound(read, next.staged[id])
                && (id in Seen(read) || !Gone(read, next.staged[id])))
  {
    hide RememberedFollows;
    hide Expired;
    hide Lost;
  }

  // ---------------------------------------------------------------------
  // What a view says of a mark
  // ---------------------------------------------------------------------

  /** The account is bound and the view has a rate-limit mark on its whole pool with this end and evidence. */
  ghost predicate Shows(view: View, id: EvidenceId) {
    && id.account in view.bindings
    && exists mark, entry :: mark in view.snapshot.marks && entry in mark.entries && IsMarkOf(mark, entry, id)
  }

  predicate IsMarkOf(mark: Mark, entry: MarkEntry, id: EvidenceId) {
    mark.key == MarkKey(id.account, "pool", "account") && IsEntryOf(entry, id)
  }

  predicate IsEntryOf(entry: MarkEntry, id: EvidenceId) {
    entry.cause == "rate-limit" && entry.until == id.until && entry.evidenceAt == id.evidenceAt
  }

  /** The view holds a clear of the account's whole pool, of rate limits or of all causes, no older than the mark. */
  ghost predicate Clears(view: View, e: Evidence) {
    exists clear :: clear in view.snapshot.tombstones
                    && clear.key == MarkKey(e.account, "pool", "account") && clear.revision >= e.committedRevision
                    && (clear.cause == None || clear.cause == Some("rate-limit"))
  }

  lemma {:induction false} EntriesShow(account: AccountKey, entries: seq<MarkEntry>, id: EvidenceId)
    ensures id in ObservedEntries(account, entries)
       <==> id.account == account && exists entry :: entry in entries && IsEntryOf(entry, id)
    decreases |entries|
  {
    if entries != [] {
      var n := |entries| - 1;
      EntriesShow(account, entries[..n], id);
      assert entries == entries[..n] + [entries[n]];
      assert forall entry :: entry in entries <==> entry in entries[..n] || entry == entries[n];
      assert IsEntryOf(entries[n], id) && id.account == account <==>
               entries[n].cause == "rate-limit" && Id(EntryEvidence(account, entries[n])) == id;
      hide IsEntryOf;
    }
  }

  lemma {:induction false} MarksShow(marks: seq<Mark>, bindings: set<AccountKey>, id: EvidenceId)
    ensures id in Observed(marks, bindings)
       <==> id.account in bindings
            && exists mark, entry :: mark in marks && entry in mark.entries && IsMarkOf(mark, entry, id)
    decreases |marks|
  {
    if marks != [] {
      var n := |marks| - 1;
      var last := marks[n];
      MarksShow(marks[..n], bindings, id);
      assert marks == marks[..n] + [last];
      EntriesShow(last.key.account, last.entries, id);
      hide IsEntryOf;
    }
  }

  /** What the latch sees of a view is what the view shows, and it takes for cleared what the view clears. */
  lemma ViewIsSeen(read: RecoveryRead, id: EvidenceId, e: Evidence)
    ensures id in Seen(read) <==> Shows(read.view, id)
    ensures Gone(read, e) <==> Clears(read.view, e)
  {
    MarksShow(read.view.snapshot.marks, read.view.bindings, id);
    var tombstones := read.view.snapshot.tombstones;
    forall clear | clear in tombstones && Covers(clear, e) ensures Cleared(tombstones, e) {
      var i :| 0 <= i < |tombstones| && tombstones[i] == clear;
    }
    forall clear ensures Covers(clear, e)
                    <==> && clear.key == MarkKey(e.account, "pool", "account") && clear.revision >= e.committedRevision
                         && (clear.cause == None || clear.cause == Some("rate-limit"))
    {
    }
  }

  predicate Held(latch: Latch, id: EvidenceId) {
    id in latch.remembered || id in latch.staged
  }

  /** The evidence held for the mark, if any, was cleared according to the view. */
  ghost predicate ClearedIfHeld(latch: Latch, view: View, id: EvidenceId) {
    && (id in latch.remembered ==> Clears(view, latch.remembered[id]))
    && (id in latch.staged ==> Clears(view, latch.staged[id]))
  }

  lemma {:induction false} ClearedIsGivenUp(latch: Latch, read: RecoveryRead, next: Latch, id: EvidenceId)
    requires Keyed(latch.remembered) && Keyed(latch.staged)
    requires Adopts(latch, read, next) && !Shows(read.view, id) && ClearedIfHeld(latch, read.view, id)
    ensures !Held(next, id)
  {
    hide Shows;
    hide Clears;
    hide Gone;
    hide Seen;
    var turned := Turned(latch, read);
    var e := if id in turned.remembered then turned.remembered[id]
             else if id in turned.staged then turned.staged[id] else Evidence(id.account, id.until, id.evidenceAt, 0);
    ViewIsSeen(read, id, e);
    if id in turned.staged { ViewIsSeen(read, id, turned.staged[id]); }
  }

  /** The action adopts a read that shows the mark. */
  ghost predicate BringsBack(w: World, action: Action, id: EvidenceId) {
    action.Adopt? && Adoptable(w.latch, action.read, action.current) && Shows(action.read.view, id)
  }

  lemma {:induction false} StaysGivenUp(trace: seq<World>, actions: seq<Action>, i: nat, j: nat, id: EvidenceId)
    requires Run(trace, actions) && Inv(trace[0]) && i <= j < |trace| && !Held(trace[i].latch, id)
    requires forall k :: i <= k < j ==> !BringsBack(trace[k], actions[k], id)
    ensures !Held(trace[j].latch, id)
    ensures |trace[i].uses| <= |trace[j].uses|
    ensures forall u :: |trace[i].uses| <= u < |trace[j].uses| ==> trace[j].uses[u].id != id
    decreases j
  {
    hide Step;
    hide Inv;
    hide BringsBack;
    if i < j {
      StaysGivenUp(trace, actions, i, j - 1, id);
      RunKeepsInv(trace, actions, j - 1);
      assert !BringsBack(trace[j - 1], actions[j - 1], id);
      NotHeldAfter(trace[j - 1], actions[j - 1], trace[j], id);
    }
  }

  lemma {:induction false} NotHeldAfter(w: World, action: Action, next: World, id: EvidenceId)
    requires Inv(w) && Step(w, action, next) && !Held(w.latch, id) && !BringsBack(w, action, id)
    ensures !Held(next.latch, id)
    ensures next.uses == w.uses || (|next.uses| == |w.uses| + 1 && next.uses[..|w.uses|] == w.uses
                                    && next.uses[|w.uses|].id != id)
  {
    hide Adopts;
    match action
    case Adopt(read, current) =>
      if Adoptable(w.latch, read, current) { ClearedIsGivenUp(w.latch, read, next.latch, id); }
    case _ =>
  }

  /**
   When an adopted view no longer shows a mark and holds a clear no older than it, the evidence of that mark is
   given up: from then on it is neither remembered nor staged and no probe uses it, until a view that shows the
   mark again is adopted.
   */
  lemma ClearedEvidenceIsNotUsed(trace: seq<World>, actions: seq<Action>, i: nat, j: nat, id: EvidenceId)
    requires Run(trace, actions) && Starts(trace[0]) && i < j < |trace|
    requires actions[i].Adopt? && Adoptable(trace[i].latch, actions[i].read, actions[i].current)
    requires !Shows(actions[i].read.view, id) && ClearedIfHeld(trace[i].latch, actions[i].read.view, id)
    requires forall k :: i < k < j ==> !BringsBack(trace[k], actions[k], id)
    ensures !Held(trace[j].latch, id)
    ensures |trace[i].uses| <= |trace[j].uses|
    ensures forall u :: |trace[i].uses| <= u < |trace[j].uses| ==> trace[j].uses[u].id != id
  {
    hide Adopts;
    RunKeepsInv(trace, actions, i);
    assert Step(trace[i], actions[i], trace[i + 1]);
    ClearedIsGivenUp(trace[i].latch, actions[i].read, trace[i + 1].latch, id);
    StaysGivenUp(trace, actions, i + 1, j, id);
  }

  /** Remembered, run out, of a bound account, and no longer shown although nothing cleared it. */
  ghost predicate Vanished(latch: Latch, read: RecoveryRead, id: EvidenceId) {
    && id in latch.remembered && id.until <= read.at && id.account in read.view.bindings
    && !Shows(read.view, id) && !Clears(read.view, latch.remembered[id])
  }

  /** Evidence of the account was spent that reaches at least as far, and some that was seen no earlier. */
  ghost predicate Outdone(id: EvidenceId, consumed: EvidenceMap) {
    && (exists spent :: spent in consumed && spent.account == id.account && spent.until >= id.until)
    && (exists spent :: spent in consumed && spent.account == id.account && spent.evidenceAt >= id.evidenceAt)
  }

  /** Staged, of a bound account, and still shown or not cleared. */
  ghost predicate StagedUncleared(latch: Latch, read: RecoveryRead, id: EvidenceId) {
    && id in latch.staged && id.account in read.view.bindings
    && (Shows(read.view, id) || !Clears(read.view, latch.staged[id]))
  }

  ghost function Waits(latch: Latch, read: RecoveryRead): set<EvidenceId> {
    set id | id in latch.remembered && Vanished(latch, read, id) && !Outdone(id, latch.consumed)
  }

  /**
   A read of the same generation that does not clear it takes no staged evidence of a bound account away. A mark
   that ran out and vanished uncleared is staged, unless spent evidence outdoes it, the latch is exhausted or
   not all that wait with it have room.
   */
  lemma {:induction false} UnclearedEvidenceWaits(trace: seq<World>, actions: seq<Action>, i: nat, id: EvidenceId)
    requires Run(trace, actions) && Starts(trace[0]) && i < |actions|
    requires actions[i].Adopt? && Adoptable(trace[i].latch, actions[i].read, actions[i].current)
    requires trace[i].latch.generation == Some(actions[i].read.view.snapshot.generation)
    ensures var latch, read, next := trace[i].latch, actions[i].read, trace[i + 1].latch;
            && (StagedUncleared(latch, read, id) ==> id in next.staged)
            && (Vanished(latch, read, id) ==>
                  || id in next.staged || latch.exhausted || Outdone(id, latch.consumed)
                  || |latch.staged.Keys + Waits(latch, read)| > 256)
  {
    RunKeepsInv(trace, actions, i);
    assert Step(trace[i], actions[i], trace[i + 1]);
    UnclearedWaits(trace[i], actions[i].read, actions[i].current, trace[i + 1], id);
  }

  lemma UnclearedWaits(w: World, read: RecoveryRead, current: Namespace, next: World, id: EvidenceId)
    requires Inv(w) && Adoptable(w.latch, read, current) && Step(w, Action.Adopt(read, current), next)
    requires w.latch.generation == Some(read.view.snapshot.generation)
    ensures StagedUncleared(w.latch, read, id) ==> id in next.latch.staged
    ensures Vanished(w.latch, read, id) ==>
              || id in next.latch.staged || w.latch.exhausted || Outdone(id, w.latch.consumed)
              || |w.latch.staged.Keys + Waits(w.latch, read)| > 256
  {
    hide *;
    AdoptedLater(w, read, current, next);
    if StagedUncleared(w.latch, read, id) { StagedStays(w.latch, read, next.latch, w.lastAt, id); }
    if Vanished(w.latch, read, id) { VanishedIsStaged(w.latch, read, next.latch, w.lastAt, id); }
  }

  lemma VanishedIsStaged(latch: Latch, read: RecoveryRead, next: Latch, at: int, id: EvidenceId)
    requires LatchInv(latch, at) && at <= read.at && Adopts(latch, read, next) && Vanished(latch, read, id)
    requires latch.generation == Some(read.view.snapshot.generation)
    ensures id in next.staged || latch.exhausted || Outdone(id, latch.consumed)
         || |latch.staged.Keys + Waits(latch, read)| > 256
  {
    hide Adopts;
    hide Waiting;
    hide RunOut;
    hide Shows;
    hide Clears;
    hide Stageable;
    hide Lost;
    ViewIsSeen(read, id, latch.remembered[id]);
    OutdoneIsDominated(latch.remembered[id], latch.consumed);
    if !latch.exhausted { WaitsAreStageable(latch, read, at); }
    LostIsStaged(latch, read, next, at, id);
  }

  lemma AdoptedLater(w: World, read: RecoveryRead, current: Namespace, next: World)
    requires Inv(w) && Adoptable(w.latch, read, current) && Step(w, Action.Adopt(read, current), next)
    ensures LatchInv(w.latch, w.lastAt) && w.lastAt <= read.at && Adopts(w.latch, read, next.latch)
  {
    hide Adopts;
    hide LatchInv;
  }

  lemma StagedStays(latch: Latch, read: RecoveryRead, next: Latch, at: int, id: EvidenceId)
    requires LatchInv(latch, at) && Adopts(latch, read, next) && StagedUncleared(latch, read, id)
    requires latch.generation == Some(read.view.snapshot.generation)
    ensures id in next.staged
  {
    hide RememberedFollows;
    hide Shows;
    hide Clears;
    ViewIsSeen(read, id, latch.staged[id]);
    assert id !in latch.remembered;
  }

  lemma OutdoneIsDominated(e: Evidence, consumed: EvidenceMap)
    requires Keyed(consumed)
    ensures Outdone(Id(e), consumed) <==> Dominated(e, consumed)
  {
  }

  lemma WaitsAreStageable(latch: Latch, read: RecoveryRead, at: int)
    requires LatchInv(latch, at) && !latch.exhausted
    ensures Stageable(Lost(latch, read), latch.consumed, latch.exhausted).Keys == Waits(latch, read)
  {
    forall id | id in latch.remembered
      ensures id in Stageable(Lost(latch, read), latch.consumed, latch.exhausted) <==> id in Waits(latch, read)
    {
      ViewIsSeen(read, id, latch.remembered[id]);
      OutdoneIsDominated(latch.remembered[id], latch.consumed);
      RememberedAt(latch, read, id);
    }
  }

  // ---------------------------------------------------------------------
  // Which evidence a probe tries
  // ---------------------------------------------------------------------

  /** Staged evidence of the account that has run out. */
  predicate Ripe(latch: Latch, account: AccountKey, now: int, id: EvidenceId) {
    id in latch.staged && id.account == account && id.until <= now
  }

  /** It ends later or, ending at the same time, was seen later. */
  predicate Later(a: EvidenceId, b: EvidenceId) {
    a.until > b.until || (a.until == b.until && a.evidenceAt > b.evidenceAt)
  }

  /** There is a candidate exactly when any staged evidence of the account has run out: the one latest of it. */
  lemma CandidateIsTheLatest(latch: Latch, account: AccountKey, now: int, e: Evidence)
    requires Keyed(latch.staged)
    ensures IsCandidate(latch, account, now, e)
       <==> && Ripe(latch, account, now, Id(e)) && latch.staged[Id(e)] == e
            && forall id :: Ripe(latch, account, now, id) && id != Id(e) ==> Later(Id(e), id)
    ensures (exists id :: Ripe(latch, account, now, id)) ==> exists best :: IsCandidate(latch, account, now, best)
  {
    if exists id :: Ripe(latch, account, now, id) {
      var ripe := set id | id in latch.staged && Ripe(latch, account, now, id);
      var some :| Ripe(latch, account, now, some);
      assert some in ripe;
      var best := LatestOf(ripe);
      assert Id(latch.staged[best]) == best;
      forall id | id in latch.staged && latch.staged[id].account == account && latch.staged[id].until <= now
        ensures Id(latch.staged[id]) == id && !Later(id, best)
      {
        assert id in ripe;
      }
      assert IsCandidate(latch, account, now, latch.staged[best]);
    }
  }

  ghost function LatestOf(ids: set<EvidenceId>): (best: EvidenceId)
    requires ids != {}
    ensures best in ids && forall id :: id in ids ==> !Later(id, best)
  {
    var id :| id in ids;
    if ids - {id} == {} then
      assert ids == {id};
      id
    else
      var rest := LatestOf(ids - {id});
      assert forall other :: other in ids ==> other == id || other in ids - {id};
      if Later(id, rest) then id else rest
  }

  // ---------------------------------------------------------------------
  // What an adopted view leaves in the latch
  // ---------------------------------------------------------------------

  /** Newer than the last read adopted, and read with authority what is current. */
  ghost predicate IsNewsOf(latch: Latch, read: RecoveryRead, current: Namespace) {
    && latch.adopted < read.token
    && read.view.authoritative && !read.view.degradedAgreement
    && (read.view.snapshot.namespace, read.view.snapshot.generation, read.view.snapshot.revision)
       == (current.namespace, current.generation, current.revision)
  }

  /** A read that is news is taken over with its token and generation; any other changes nothing. */
  lemma TakenExactlyWhenNews(trace: seq<World>, actions: seq<Action>, i: nat)
    requires Run(trace, actions) && i < |actions| && actions[i].Adopt?
    ensures var latch, read, current, next := trace[i].latch, actions[i].read, actions[i].current, trace[i + 1].latch;
            if IsNewsOf(latch, read, current)
            then next.adopted == read.token && next.generation == Some(current.generation)
            else next == latch
  {
    assert Step(trace[i], actions[i], trace[i + 1]);
  }

  /** The latch as the read finds it: of another generation nothing remembered, staged or spent counts. */
  function Carried(latch: Latch, read: RecoveryRead): Latch {
    var generation := read.view.snapshot.generation;
    var same := latch.generation == Some(generation);
    latch.(adopted := read.token, generation := Some(generation),
           remembered := if same then latch.remembered else map[],
           staged := if same then latch.staged else map[], consumed := if same then latch.consumed else map[])
  }

  /** The view shows the mark with this revision. */
  ghost predicate ShowsAt(view: View, id: EvidenceId, revision: int) {
    exists mark, entry :: mark in view.snapshot.marks && entry in mark.entries && IsMarkOf(mark, entry, id)
      && entry.committedRevision == revision
  }

  ghost function ShownIds(view: View): set<EvidenceId> {
    set mark, entry | mark in view.snapshot.marks && entry in mark.entries
                      && mark.key.account in view.bindings && mark.key.scope == "pool" && mark.key.window == "account"
                      && entry.cause == "rate-limit"
      :: EvidenceId(mark.key.account, entry.until, entry.evidenceAt)
  }

  lemma ShownIdsAre(view: View, id: EvidenceId)
    ensures id in ShownIds(view) <==> Shows(view, id)
  {
    if Shows(view, id) {
      var mark, entry :| mark in view.snapshot.marks && entry in mark.entries && IsMarkOf(mark, entry, id);
      assert id == EvidenceId(mark.key.account, entry.until, entry.evidenceAt);
    }
    if id in ShownIds(view) {
      var mark, entry :| mark in view.snapshot.marks && entry in mark.entries
                         && mark.key.account in view.bindings
                         && mark.key.scope == "pool" && mark.key.window == "account" && entry.cause == "rate-limit"
                         && id == EvidenceId(mark.key.account, entry.until, entry.evidenceAt);
      assert IsMarkOf(mark, entry, id);
    }
  }

  /** Unspent marks the view shows still running or, with `runOut`, run out. */
  ghost function Unspent(read: RecoveryRead, consumed: EvidenceMap, runOut: bool): set<EvidenceId> {
    set id | id in ShownIds(read.view) && id !in consumed && (id.until <= read.at) == runOut
  }

  /** What is remembered was shown running; what is staged was shown run out, or was held before and not cleared. */
  ghost predicate HeldForAReason(was: Latch, read: RecoveryRead, next: Latch, id: EvidenceId) {
    && (Held(next, id) ==> id.account in read.view.bindings && id !in was.consumed)
    && (id in next.remembered ==> id.until > read.at && ShowsAt(read.view, id, next.remembered[id].committedRevision))
    && (id in next.staged ==>
          && id.until <= read.at && !Outdone(id, was.consumed)
          && if Shows(read.view, id) then ShowsAt(read.view, id, next.staged[id].committedRevision)
             else Held(was, id) && !Clears(read.view, next.staged[id]))
  }

  /** What the view shows is remembered while it runs, if it was or has room, and staged once it has run out. */
  ghost predicate ShownIsHeld(was: Latch, read: RecoveryRead, next: Latch, id: EvidenceId) {
    Shows(read.view, id) && id !in was.consumed ==>
      if id.until > read.at
      then id in next.remembered
           || (id !in was.remembered && |was.remembered.Keys + Unspent(read, was.consumed, false)| > 256)
      else id in next.staged || was.exhausted || Outdone(id, was.consumed)
           || |was.staged.Keys + Waits(was, read) + Unspent(read, was.consumed, true)| > 256
  }

  /** In every run an adopted read leaves the latch with evidence for a reason, and with what it shows. */
  lemma AdoptionHoldsWhatIsShown(trace: seq<World>, actions: seq<Action>, i: nat, id: EvidenceId)
    requires Run(trace, actions) && Starts(trace[0]) && i < |actions|
    requires actions[i].Adopt? && IsNewsOf(trace[i].latch, actions[i].read, actions[i].current)
    ensures var was, next := Carried(trace[i].latch, actions[i].read), trace[i + 1].latch;
            && HeldForAReason(was, actions[i].read, next, id) && ShownIsHeld(was, actions[i].read, next, id)
            && next.consumed == was.consumed && next.exhausted == was.exhausted
  {
    RunKeepsInv(trace, actions, i);
    assert Step(trace[i], actions[i], trace[i + 1]);
    var w, read, next := trace[i], actions[i].read, trace[i + 1];
    hide *;
    NewsIsAdoptable(w.latch, read, actions[i].current);
    AdoptedLater(w, read, actions[i].current, next);
    AdoptionHolds(w.latch, read, next.latch, w.lastAt, id);
  }

  lemma AdoptionHolds(latch: Latch, read: RecoveryRead, next: Latch, at: int, id: EvidenceId)
    requires LatchInv(latch, at) && at <= read.at && Adopts(latch, read, next)
    ensures var was := Carried(latch, read);
            && HeldForAReason(was, read, next, id) && ShownIsHeld(was, read, next, id)
            && next.consumed == was.consumed && next.exhausted == was.exhausted
  {
    hide LatchInv;
    hide RememberedFollows;
    hide StagedFollows;
    hide Shows;
    hide ShowsAt;
    hide Clears;
    hide Outdone;
    hide Unspent;
    hide Waits;
    var turned := Turned(latch, read);
    assert turned == Carried(latch, read);
    TurnedKeeps(latch, read, at);
    var mid := MidOf(latch, read, next);
    hide Adopts;
    hide Turned;
    hide Carried;
    RememberedForAReason(turned, read, next, at, id);
    StagedForAReason(turned, read, next, mid, at, id);
    ShownIsRemembered(turned, read, next, at, id);
    ShownIsStaged(turned, read, next, mid, at, id);
  }

  ghost function MidOf(latch: Latch, read: RecoveryRead, next: Latch): (mid: EvidenceMap)
    requires Adopts(latch, read, next)
    ensures StagedFollows(Turned(latch, read), read, mid, next.staged)
    ensures RememberedFollows(Turned(latch, read), read, next.remembered)
  {
    var mid :| StagedFollows(Turned(latch, read), read, mid, next.staged);
    mid
  }

  lemma {:induction false} EntriesShowRevision(account: AccountKey, entries: seq<MarkEntry>, id: EvidenceId)
    requires id in ObservedEntries(account, entries)
    ensures exists entry :: entry in entries && id.account == account && IsEntryOf(entry, id)
              && entry.committedRevision == ObservedEntries(account, entries)[id].committedRevision
    decreases |entries|
  {
    var n := |entries| - 1;
    assert entries == entries[..n] + [entries[n]];
    if entries[n].cause != "rate-limit" || Id(EntryEvidence(account, entries[n])) != id {
      EntriesShowRevision(account, entries[..n], id);
    } else {
      assert IsEntryOf(entries[n], id);
    }
  }

  /** The revision of what the latch sees is one the view shows. */
  lemma {:induction false} SeenRevisionIsShown(view: View, marks: seq<Mark>, id: EvidenceId)
    requires id in Observed(marks, view.bindings) && forall mark :: mark in marks ==> mark in view.snapshot.marks
    ensures ShowsAt(view, id, Observed(marks, view.bindings)[id].committedRevision)
    decreases |marks|
  {
    var n := |marks| - 1;
    var last := marks[n];
    if IsPoolAccountKey(last.key) && last.key.account in view.bindings
       && id in ObservedEntries(last.key.account, last.entries)
    {
      EntriesShowRevision(last.key.account, last.entries, id);
      var entry :| entry in last.entries && id.account == last.key.account && IsEntryOf(entry, id)
                   && entry.committedRevision == ObservedEntries(last.key.account, last.entries)[id].committedRevision;
      assert IsMarkOf(last, entry, id);
    } else {
      SeenRevisionIsShown(view, marks[..n], id);
    }
  }

  lemma SeenIsShown(read: RecoveryRead, id: EvidenceId)
    ensures id in Seen(read) <==> Shows(read.view, id)
    ensures id in Seen(read) ==> && ShowsAt(read.view, id, Seen(read)[id].committedRevision)
                                 && id.account in read.view.bindings && Id(Seen(read)[id]) == id
  {
    ViewIsSeen(read, id, Evidence(id.account, 0, 0, 0));
    ObservedKeyed(read.view.snapshot.marks, read.view.bindings);
    if id in Seen(read) { SeenRevisionIsShown(read.view, read.view.snapshot.marks, id); }
  }

  lemma RememberedForAReason(latch: Latch, read: RecoveryRead, next: Latch, at: int, id: EvidenceId)
    requires LatchInv(latch, at) && at <= read.at && RememberedFollows(latch, read, next.remembered)
    ensures id in next.remembered ==>
              && id.until > read.at && id.account in read.view.bindings && id !in latch.consumed
              && ShowsAt(read.view, id, next.remembered[id].committedRevision)
  {
    hide RememberedFollows;
    hide ShowsAt;
    hide Shows;
    AdoptedRemembered(latch, read, next.remembered, at);
    SeenIsShown(read, id);
  }

  lemma StagedForAReason(latch: Latch, read: RecoveryRead, next: Latch, mid: EvidenceMap, at: int, id: EvidenceId)
    requires LatchInv(latch, at) && at <= read.at && StagedFollows(latch, read, mid, next.staged)
    ensures id in next.staged ==>
              && id.account in read.view.bindings && id !in latch.consumed
              && id.until <= read.at && !Outdone(id, latch.consumed)
              && if Shows(read.view, id) then ShowsAt(read.view, id, next.staged[id].committedRevision)
                 else Held(latch, id) && !Clears(read.view, next.staged[id])
  {
    hide StagedFollows;
    hide Shows;
    hide ShowsAt;
    hide Clears;
    hide Outdone;
    hide Dominated;
    hide Bounded;
    hide StillRunning;
    hide RunOut;
    if id in next.staged {
      AdoptedStaged(latch, read, mid, next.staged, at);
      OutdoneIsDominated(next.staged[id], latch.consumed);
      SeenIsShown(read, id);
      ViewIsSeen(read, id, next.staged[id]);
      StagedIsOf(latch, read, mid, next.staged, id);
    }
  }

  lemma StagedIsOf(latch: Latch, read: RecoveryRead, mid: EvidenceMap, staged: EvidenceMap, id: EvidenceId)
    requires Keyed(latch.staged) && Keyed(latch.remembered) && StagedFollows(latch, read, mid, staged) && id in staged
    requires MayStage(staged[id], latch.consumed, latch.exhausted) && Id(staged[id]) == id && id.until <= read.at
    ensures if id in Seen(read) then staged[id] == Seen(read)[id]
            else Held(latch, id) && staged[id].account in read.view.bindings && !Gone(read, staged[id])
  {
    hide Seen;
    hide Gone;
    hide MayStage;
    hide Keyed;
    if id in Seen(read) {
      ShownMayStage(read, latch, staged[id], id);
    }
    var expired := Stageable(Expired(latch, read), latch.consumed, latch.exhausted);
    var lost := Stageable(Lost(latch, read), latch.consumed, latch.exhausted);
    var surviving := Surviving(mid, read);
    assert id in mid ==> id in latch.staged || id in lost;
    assert id in staged && (id in expired || id in surviving);
  }

  lemma ShownMayStage(read: RecoveryRead, latch: Latch, e: Evidence, id: EvidenceId)
    requires id in Seen(read) && Id(e) == id && MayStage(e, latch.consumed, latch.exhausted) && id.until <= read.at
    ensures id in Stageable(Expired(latch, read), latch.consumed, latch.exhausted)
  {
    hide Seen;
    SeenIsShown(read, id);
    SeenAt(latch, read, id);
  }

  lemma ShownIsRemembered(latch: Latch, read: RecoveryRead, next: Latch, at: int, id: EvidenceId)
    requires LatchInv(latch, at) && RememberedFollows(latch, read, next.remembered)
    ensures Shows(read.view, id) && id !in latch.consumed && id.until > read.at ==>
              id in next.remembered
              || (id !in latch.remembered && |latch.remembered.Keys + Unspent(read, latch.consumed, false)| > 256)
  {
    var room := latch.remembered.Keys + Unspent(read, latch.consumed, false);
    SeenIsShown(read, id);
    var shown, running := Shown(latch, read), Running(latch, read);
    RunningIsUnspent(latch, read);
    if |room| <= 256 {
      SubsetSize(shown.Keys + running.Keys, room);
      assert AllRemembered(running, {}, next.remembered);
    }
  }

  lemma RunningIsUnspent(latch: Latch, read: RecoveryRead)
    ensures Running(latch, read).Keys == Unspent(read, latch.consumed, false)
    ensures Expired(latch, read).Keys == Unspent(read, latch.consumed, true)
  {
    hide Shows;
    forall id: EvidenceId
      ensures id in Running(latch, read) <==> id in Unspent(read, latch.consumed, false)
      ensures id in Expired(latch, read) <==> id in Unspent(read, latch.consumed, true)
    {
      SeenIsShown(read, id);
      ShownIdsAre(read.view, id);
      ObservedKeyed(read.view.snapshot.marks, read.view.bindings);
    }
  }

  lemma ShownIsStaged(latch: Latch, read: RecoveryRead, next: Latch, mid: EvidenceMap, at: int, id: EvidenceId)
    requires LatchInv(latch, at) && at <= read.at && StagedFollows(latch, read, mid, next.staged)
    ensures Shows(read.view, id) && id !in latch.consumed && id.until <= read.at ==>
              id in next.staged || latch.exhausted || Outdone(id, latch.consumed)
              || |latch.staged.Keys + Waits(latch, read) + Unspent(read, latch.consumed, true)| > 256
  {
    hide Shows;
    hide Waits;
    hide Unspent;
    hide Outdone;
    if Shows(read.view, id) && id !in latch.consumed && id.until <= read.at && !latch.exhausted
       && !Outdone(id, latch.consumed)
    {
      ShownIsStageable(latch, read, id);
      WaitsAreStageable(latch, read, at);
      var room := latch.staged.Keys + Waits(latch, read) + Unspent(read, latch.consumed, true);
      var items := Stageable(Expired(latch, read), latch.consumed, latch.exhausted);
      StagedWithin(latch, read, mid);
      hide Stageable;
      hide Surviving;
      hide LatchInv;
      if |room| <= 256 { FilledWithRoom(Surviving(mid, read), items, next.staged, room, id); }
    }
  }

  lemma ShownIsStageable(latch: Latch, read: RecoveryRead, id: EvidenceId)
    requires Keyed(latch.consumed) && !latch.exhausted && Shows(read.view, id) && id.until <= read.at
    requires id !in latch.consumed && !Outdone(id, latch.consumed)
    ensures id in Stageable(Expired(latch, read), latch.consumed, latch.exhausted)
    ensures Stageable(Expired(latch, read), latch.consumed, latch.exhausted).Keys
         <= Unspent(read, latch.consumed, true)
  {
    hide Shows;
    hide Outdone;
    hide Dominated;
    SeenIsShown(read, id);
    RunningIsUnspent(latch, read);
    OutdoneIsDominated(Seen(read)[id], latch.consumed);
    hide Unspent;
    hide Seen;
  }

  /** What survives the second pass was staged before, or staged in the first. */
  lemma StagedWithin(latch: Latch, read: RecoveryRead, mid: EvidenceMap)
    requires Filled(latch.staged, Stageable(Lost(latch, read), latch.consumed, latch.exhausted), mid,
                    RECOVERY_STAGED_BOUND)
    ensures Surviving(mid, read).Keys
         <= latch.staged.Keys + Stageable(Lost(latch, read), latch.consumed, latch.exhausted).Keys
  {
    hide Stageable;
    hide Lost;
  }

  lemma NewsIsAdoptable(latch: Latch, read: RecoveryRead, current: Namespace)
    ensures IsNewsOf(latch, read, current) <==> Adoptable(latch, read, current)
  {
  }

  // ---------------------------------------------------------------------
  // A generation that comes back
  // ---------------------------------------------------------------------

  /** A mark that the evidence is of. */
  function MarkOf(e: Evidence): Mark {
    Mark(MarkKey(e.account, "pool", "account"), [MarkEntry("rate-limit", e.until, e.evidenceAt, e.committedRevision)])
  }

  function Showing(e: Evidence, generation: string): View {
    View(Namespace(e.account.namespace, generation, 1, [MarkOf(e)], []), {e.account}, true, false)
  }

  /** A latch of another generation adopts a read that shows one expired mark. */
  lemma AdoptsTheMark(e: Evidence, generation: string, latch: Latch, read: RecoveryRead, next: Latch)
    requires latch.generation != Some(generation) && !latch.exhausted
    requires read.view == Showing(e, generation) && e.until <= read.at
    requires next == Latch(Some(generation), latch.issued, read.token, map[], map[Id(e) := e], map[], false)
    ensures Adopts(latch, read, next)
  {
    var turned := Turned(latch, read);
    SeesTheMark(e);
    assert Seen(read) == map[Id(e) := e];
    assert Expired(turned, read) == map[Id(e) := e];
    assert Running(turned, read) == map[];
    assert Stageable(Lost(turned, read), turned.consumed, false) == map[];
    assert StagedFollows(turned, read, map[], next.staged);
    assert RememberedFollows(turned, read, map[]);
  }

  lemma SeesTheMark(e: Evidence)
    ensures Observed([MarkOf(e)], {e.account}) == map[Id(e) := e]
  {
    var mark := MarkOf(e);
    assert Observed([mark][..0], {e.account}) == map[];
    assert ObservedEntries(e.account, mark.entries[..0]) == map[];
    assert ObservedEntries(e.account, mark.entries) == map[Id(e) := e];
  }

  /** Once its time has passed, a read of the generation is captured and adopted and its expired mark used. */
  lemma UsedInOneStretch(w: World, e: Evidence, generation: string) returns (trace: seq<World>, actions: seq<Action>)
    requires w.latch.generation != Some(generation) && !w.latch.exhausted && w.latch.adopted <= w.latch.issued
    ensures |trace| == 5 && Run(trace, actions) && trace[0] == w
    ensures var last := trace[|trace| - 1];
            && last.history == w.history + [generation] && last.uses == w.uses + [Use(|w.history| + 1, Id(e))]
            && last.latch.generation == Some(generation) && !last.latch.exhausted
            && last.latch.adopted <= last.latch.issued
  {
    hide Adopts;
    hide Consumed;
    hide Used;
    var now := if w.clock < e.until then e.until else w.clock;
    var read := RecoveryRead(w.latch.issued + 1, Showing(e, generation), now);
    var w0 := w.(clock := now);
    var w1 := w0.(latch := w.latch.(issued := read.token), captured := w.captured + {read});
    var l2 := Latch(Some(generation), read.token, read.token, map[], map[Id(e) := e], map[], false);
    var w2 := w1.(latch := l2, lastAt := now, history := w.history + [generation]);
    var w3 := w2.(latch := l2.(staged := map[], consumed := map[Id(e) := e]),
                  uses := w.uses + [Use(|w.history| + 1, Id(e))]);
    AdoptsTheMark(e, generation, w1.latch, read, l2);
    UsesTheMark(e, l2);
    trace := [w, w0, w1, w2, w3];
    actions := [Action.Tick(now), Action.Capture(Showing(e, generation)),
                Action.Adopt(read, Showing(e, generation).snapshot), Action.Consume(RecoveryEvidence(e, generation))];
    assert Step(w, actions[0], w0);
    assert Step(w0, actions[1], w1);
    assert Step(w1, actions[2], w2);
    assert Step(w2, actions[3], w3);
  }

  lemma UsesTheMark(e: Evidence, latch: Latch)
    requires latch.generation.Some? && latch.staged == map[Id(e) := e] && latch.consumed == map[]
    requires !latch.exhausted
    ensures var use := RecoveryEvidence(e, latch.generation.value);
            && Used(latch, use)
            && Consumed(latch, use) == latch.(staged := map[], consumed := map[Id(e) := e])
  {
    assert OfAccount(latch.staged, e.account) == latch.staged;
  }

  lemma RunsJoin(t1: seq<World>, a1: seq<Action>, t2: seq<World>, a2: seq<Action>)
    requires Run(t1, a1) && Run(t2, a2) && t1[|t1| - 1] == t2[0]
    ensures Run(t1 + t2[1..], a1 + a2)
  {
    hide Step;
    var trace, actions := t1 + t2[1..], a1 + a2;
    forall i | 0 <= i < |actions| ensures Step(trace[i], actions[i], trace[i + 1]) {
      if i >= |a1| {
        assert trace[i] == t2[i - |a1|] && trace[i + 1] == t2[i - |a1| + 1];
      }
    }
  }

  /** From the state on, some run ends with a use of the evidence under the generation. */
  ghost predicate MayBeUsed(w: World, id: EvidenceId, generation: string) {
    exists trace, actions :: Run(trace, actions) && trace[0] == w && EndsWithUse(w, trace[|trace| - 1], id, generation)
  }

  ghost predicate EndsWithUse(w: World, last: World, id: EvidenceId, generation: string) {
    && UsesInv(last) && |last.uses| > |w.uses|
    && last.uses[|last.uses| - 1].id == id && GenerationOf(last, |last.uses| - 1) == generation
  }

  /**
   In every state of every run, any evidence may still be used under any generation, used there before or
   not, exactly when the latch is not exhausted: a registry that shows its mark again is believed.
   */
  lemma MayBeUsedExactlyWhen(trace: seq<World>, actions: seq<Action>, k: nat, e: Evidence, generation: string)
    requires Run(trace, actions) && Starts(trace[0]) && k < |trace|
    ensures MayBeUsed(trace[k], Id(e), generation) <==> !trace[k].latch.exhausted
  {
    RunKeepsInv(trace, actions, k);
    hide Inv;
    hide MayBeUsed;
    if trace[k].latch.exhausted {
      NotUsedWhenExhausted(trace[k], Id(e), generation);
    } else {
      UsedUnlessExhausted(trace[k], e, generation);
    }
  }

  lemma NotUsedWhenExhausted(w: World, id: EvidenceId, generation: string)
    requires Inv(w) && w.latch.exhausted
    ensures !MayBeUsed(w, id, generation)
  {
    forall t, a | Run(t, a) && t[0] == w ensures !EndsWithUse(w, t[|t| - 1], id, generation) {
      ExhaustionIsFinal(t, a, 0, |t| - 1);
    }
  }

  lemma UsedUnlessExhausted(w: World, e: Evidence, generation: string)
    requires Inv(w) && !w.latch.exhausted
    ensures MayBeUsed(w, Id(e), generation)
  {
    hide *;
    AdoptedWasIssued(w);
    var t, a := UsedOnReturn(w, e, generation);
    RunKeepsInv(t, a, |t| - 1);
    EndsSo(w, t[|t| - 1], e, generation);
    ByThisRun(w, t, a, Id(e), generation);
  }

  lemma ByThisRun(w: World, trace: seq<World>, actions: seq<Action>, id: EvidenceId, generation: string)
    requires Run(trace, actions) && |trace| > 0 && trace[0] == w
    requires EndsWithUse(w, trace[|trace| - 1], id, generation)
    ensures MayBeUsed(w, id, generation)
  {
    hide Step;
  }

  lemma AdoptedWasIssued(w: World)
    requires Inv(w)
    ensures w.latch.adopted <= w.latch.issued
  {
  }

  /** The evidence is used in the generation, after another one if the latch is there already. */
  lemma UsedOnReturn(w: World, e: Evidence, generation: string) returns (trace: seq<World>, actions: seq<Action>)
    requires !w.latch.exhausted && w.latch.adopted <= w.latch.issued
    ensures Run(trace, actions) && |trace| > 0 && trace[0] == w
    ensures var last := trace[|trace| - 1];
            && |last.uses| > |w.uses| && last.uses[|last.uses| - 1] == Use(|last.history|, Id(e))
            && last.history != [] && last.history[|last.history| - 1] == generation
  {
    hide Run;
    if w.latch.generation != Some(generation) {
      trace, actions := UsedInOneStretch(w, e, generation);
    } else {
      assert |generation + "'"| != |generation|;
      trace, actions := UsedInOneStretch(w, e, generation + "'");
      var t2, a2 := UsedInOneStretch(trace[|trace| - 1], e, generation);
      RunsJoin(trace, actions, t2, a2);
      trace, actions := trace + t2[1..], actions + a2;
    }
  }

  lemma EndsSo(w: World, last: World, e: Evidence, generation: string)
    requires Inv(last) && |last.uses| > |w.uses| && last.uses[|last.uses| - 1] == Use(|last.history|, Id(e))
    requires last.history != [] && last.history[|last.history| - 1] == generation
    ensures EndsWithUse(w, last, Id(e), generation)
  {
  }

  /** Any evidence used in one generation can be used again there once the latch left it and returned. */
  lemma ReturningGenerationReuses(e: Evidence, first: string, second: string)
    returns (trace: seq<World>, actions: seq<Action>)
    requires first != second
    ensures Run(trace, actions) && Starts(trace[0])
    ensures var w := trace[|trace| - 1];
            && UsesInv(w) && |w.uses| == 3
            && w.uses[0].id == w.uses[2].id == Id(e) && GenerationOf(w, 0) == GenerationOf(w, 2) == first
  {
    hide Run;
    hide Inv;
    trace, actions := UsedInOneStretch(World(EMPTY_LATCH, 0, {}, 0, [], []), e, first);
    var t2, a2 := UsedInOneStretch(trace[|trace| - 1], e, second);
    RunsJoin(trace, actions, t2, a2);
    trace, actions := trace + t2[1..], actions + a2;
    var t3, a3 := UsedInOneStretch(trace[|trace| - 1], e, first);
    RunsJoin(trace, actions, t3, a3);
    trace, actions := trace + t3[1..], actions + a3;
    StartsWell(trace[0]);
    RunKeepsInv(trace, actions, |trace| - 1);
    CountsUses(trace[|trace| - 1]);
  }

  lemma StartsWell(w: World)
    requires Starts(w)
    ensures Inv(w)
  {
  }

  lemma CountsUses(w: World)
    requires Inv(w)
    ensures UsesInv(w)
  {
  }
}
