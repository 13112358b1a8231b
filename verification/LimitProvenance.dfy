/**
 Where a limit mark's expiry came from (`LimitProvenanceStore`): one entry an account, which must not
 gain strength while its expiry stays the same.
 */
module LimitProvenance {
  import opened Options
  import opened RecoveryLatch

  datatype Branch = Unproven | Reading | Provider

  datatype Provenance = Provenance(
    account: AccountKey, expiry: int, branch: Branch, observedAt: int, evidenceAt: int)

  type Entries = map<AccountKey, Provenance>

  const PROVENANCE_BOUND: nat := 256

  function Strength(branch: Branch): nat {
    match branch
    case Unproven => 0
    case Reading => 1
    case Provider => 2
  }

  // ---------------------------------------------------------------------
  // What each operation does to the entries
  // ---------------------------------------------------------------------

  function Pruned(entries: Entries, now: int): Entries {
    map id | id in entries && entries[id].expiry > now :: entries[id]
  }

  /** The mark the entry annotates is in the snapshot. */
  predicate Backed(entry: Provenance, snapshot: Namespace) {
    exists i :: 0 <= i < |snapshot.marks| && BackedBy(entry, snapshot.marks[i])
  }

  predicate BackedBy(entry: Provenance, mark: Mark) {
    && mark.key.account == entry.account && IsPoolAccountKey(mark.key)
    && exists j :: 0 <= j < |mark.entries| && mark.entries[j].cause == "rate-limit"
                   && mark.entries[j].until == entry.expiry && mark.entries[j].evidenceAt == entry.evidenceAt
  }

  function Reconciled(entries: Entries, snapshot: Namespace, now: int): Entries {
    map id | id in entries && entries[id].expiry > now && Backed(entries[id], snapshot) :: entries[id]
  }

  /** The entry would say no less than the one there is, for the same expiry. */
  predicate Upgrades(entries: Entries, entry: Provenance) {
    && entry.account in entries && entries[entry.account].expiry == entry.expiry
    && Strength(entries[entry.account].branch) <= Strength(entry.branch)
  }

  predicate IsOldest(entries: Entries, id: AccountKey) {
    id in entries && forall other :: other in entries ==> entries[id].observedAt <= entries[other].observedAt
  }

  /** Recording an entry: a full store loses one that was observed no later than any other. */
  ghost predicate Records(entries: Entries, namespace: string, entry: Provenance, now: int, next: Entries) {
    if entry.account.namespace != namespace then next == entries
    else
      var pruned := Pruned(entries, now);
      if entry.expiry <= now || Upgrades(pruned, entry) then next == pruned
      else
        var added := pruned[entry.account := entry];
        if |added| <= PROVENANCE_BOUND then next == added
        else exists oldest :: IsOldest(added, oldest) && next == added - {oldest}
  }

  predicate WellKeyed(entries: Entries, namespace: string) {
    forall id :: id in entries ==> entries[id].account == id && id.namespace == namespace
  }

  // ---------------------------------------------------------------------
  // The class
  // ---------------------------------------------------------------------

  /** The entries backed by the snapshot, and those still to be looked at. */
  function BackedBut(entries: Entries, snapshot: Namespace, todo: set<AccountKey>): Entries {
    map id | id in entries && (id in todo || Backed(entries[id], snapshot)) :: entries[id]
  }

  lemma BackedStep(entries: Entries, snapshot: Namespace, todo: set<AccountKey>, id: AccountKey)
    requires id in todo && id in entries
    ensures var kept := BackedBut(entries, snapshot, todo);
            && id in kept && kept[id] == entries[id]
            && BackedBut(entries, snapshot, todo - {id})
               == if Backed(entries[id], snapshot) then kept else kept - {id}
  {
    hide Backed;
  }

  lemma BackedEnds(before: Entries, snapshot: Namespace, now: int)
    ensures BackedBut(Pruned(before, now), snapshot, Pruned(before, now).Keys) == Pruned(before, now)
    ensures BackedBut(Pruned(before, now), snapshot, {}) == Reconciled(before, snapshot, now)
    ensures Reconciled(before, snapshot, now).Keys <= before.Keys
  {
    hide Backed;
  }

  class LimitProvenanceStore {
    const namespace: string
    var entries: Entries

    predicate Valid()
      reads this
    {
      WellKeyed(entries, namespace) && |entries| <= PROVENANCE_BOUND
    }

    constructor (namespace: string)
      ensures Valid() && entries == map[] && this.namespace == namespace
    {
      this.namespace := namespace;
      entries := map[];
    }

    method Record(entry: Provenance, now: int)
      requires Valid()
      modifies this
      ensures Valid()
      ensures Records(old(entries), namespace, entry, now, entries)
    {
      if entry.account.namespace != namespace { return; }
      Prune(now);
      if entry.expiry <= now { return; }
      if entry.account in entries {
        var previous := entries[entry.account];
        if previous.expiry == entry.expiry && Strength(previous.branch) <= Strength(entry.branch) { return; }
      }
      ghost var pruned := entries;
      entries := entries[entry.account := entry];
      AddedSize(pruned, entry);
      if |entries| <= PROVENANCE_BOUND { return; }
      var oldest := Oldest();
      entries := entries - {oldest};
    }

    /** The key of an entry that was observed no later than any other. */
    method Oldest() returns (oldest: AccountKey)
      requires entries != map[]
      ensures IsOldest(entries, oldest)
    {
      oldest :| oldest in entries;
      var todo := entries.Keys - {oldest};
      while todo != {}
        invariant todo <= entries.Keys && oldest in entries
        invariant forall id :: id in entries && id !in todo ==> entries[oldest].observedAt <= entries[id].observedAt
        decreases |todo|
      {
        var id :| id in todo;
        todo := todo - {id};
        if entries[id].observedAt < entries[oldest].observedAt { oldest := id; }
      }
    }

    method Read(account: AccountKey, expiry: int, evidenceAt: int, now: int) returns (entry: Option<Provenance>)
      requires Valid()
      modifies this
      ensures Valid() && entries == Pruned(old(entries), now)
      ensures entry == if account in entries && entries[account].expiry == expiry
                          && entries[account].evidenceAt == evidenceAt
                       then Some(entries[account]) else None
    {
      Prune(now);
      if account !in entries { return None; }
      var found := entries[account];
      return if found.expiry == expiry && found.evidenceAt == evidenceAt then Some(found) else None;
    }

    method Retire(account: AccountKey)
      requires Valid()
      modifies this
      ensures Valid() && entries == old(entries) - {account}
    {
      SubsetSize((entries - {account}).Keys, entries.Keys);
      entries := entries - {account};
    }

    method Clear()
      modifies this
      ensures Valid() && entries == map[]
    {
      entries := map[];
    }

    method Reconcile(snapshot: Namespace, now: int)
      requires Valid()
      modifies this
      ensures Valid() && entries == Reconciled(old(entries), snapshot, now)
    {
      ghost var before := entries;
      Prune(now);
      ghost var pruned := entries;
      var todo := entries.Keys;
      BackedEnds(before, snapshot, now);
      hide Backed;
      hide BackedBut;
      while todo != {}
        invariant todo <= pruned.Keys
        invariant entries == BackedBut(pruned, snapshot, todo)
        decreases |todo|
      {
        var id :| id in todo;
        BackedStep(pruned, snapshot, todo, id);
        todo := todo - {id};
        if !Backed(entries[id], snapshot) { entries := entries - {id}; }
      }
      SubsetSize(entries.Keys, before.Keys);
    }

    method Prune(now: int)
      requires Valid()
      modifies this
      ensures Valid() && entries == Pruned(old(entries), now)
    {
      ghost var before := entries;
      var todo := entries.Keys;
      while todo != {}
        invariant todo <= before.Keys
        invariant entries == map id | id in before && (id in todo || before[id].expiry > now) :: before[id]
        decreases |todo|
      {
        var id :| id in todo;
        todo := todo - {id};
        if entries[id].expiry <= now { entries := entries - {id}; }
      }
      SubsetSize(entries.Keys, before.Keys);
    }
  }

  lemma AddedSize(entries: Entries, entry: Provenance)
    ensures |entries[entry.account := entry]| <= |entries| + 1
  {
    assert entries[entry.account := entry].Keys == entries.Keys + {entry.account};
  }

  // ---------------------------------------------------------------------
  // Runs
  // ---------------------------------------------------------------------

  datatype Op =
    | Record(entry: Provenance, now: int)
    | Read(now: int)
    | Retire(account: AccountKey)
    | Clear
    | Reconcile(snapshot: Namespace, now: int)

  ghost predicate Step(namespace: string, entries: Entries, op: Op, next: Entries) {
    match op
    case Record(entry, now) => Records(entries, namespace, entry, now, next)
    case Read(now) => next == Pruned(entries, now)
    case Retire(account) => next == entries - {account}
    case Clear => next == map[]
    case Reconcile(snapshot, now) => next == Reconciled(entries, snapshot, now)
  }

  ghost predicate Run(namespace: string, trace: seq<Entries>, ops: seq<Op>) {
    && |trace| == |ops| + 1
    && forall i :: 0 <= i < |ops| ==> Step(namespace, trace[i], ops[i], trace[i + 1])
  }

  lemma StepKeeps(namespace: string, entries: Entries, op: Op, next: Entries)
    requires WellKeyed(entries, namespace) && |entries| <= PROVENANCE_BOUND && Step(namespace, entries, op, next)
    ensures WellKeyed(next, namespace) && |next| <= PROVENANCE_BOUND
  {
    hide Records;
    hide Backed;
    if op.Record? {
      RecordKeeps(namespace, entries, op.entry, op.now, next);
    } else {
      SubsetSize(next.Keys, entries.Keys);
    }
  }

  lemma RecordKeeps(namespace: string, entries: Entries, entry: Provenance, now: int, next: Entries)
    requires WellKeyed(entries, namespace) && |entries| <= PROVENANCE_BOUND
    requires Records(entries, namespace, entry, now, next)
    ensures WellKeyed(next, namespace) && |next| <= PROVENANCE_BOUND
  {
    hide Upgrades;
    var pruned := Pruned(entries, now);
    SubsetSize(pruned.Keys, entries.Keys);
    AddedSize(pruned, entry);
  }

  /** After any calls the store holds at most 256 entries, one for each account, all of its namespace. */
  lemma {:induction false} StoreStaysBounded(namespace: string, trace: seq<Entries>, ops: seq<Op>, i: nat)
    requires Run(namespace, trace, ops) && trace[0] == map[] && i < |trace|
    ensures WellKeyed(trace[i], namespace) && |trace[i]| <= 256
    ensures forall id :: id in trace[i] ==> trace[i][id].account == id && id.namespace == namespace
    decreases i
  {
    hide Step;
    if i > 0 {
      StoreStaysBounded(namespace, trace, ops, i - 1);
      StepKeeps(namespace, trace[i - 1], ops[i - 1], trace[i]);
    }
  }

  /** A guess proves nothing, a reading less than the provider's own word. */
  predicate ProvesNoMore(branch: Branch, than: Branch) {
    branch == than || branch == Unproven || than == Provider
  }

  lemma StrengthIsProof(a: Branch, b: Branch)
    ensures Strength(a) <= Strength(b) <==> ProvesNoMore(a, b)
  {
  }

  /** The account has an entry with this expiry. */
  predicate Expires(entries: Entries, account: AccountKey, expiry: int) {
    account in entries && entries[account].expiry == expiry
  }

  lemma StepOnlyWeakens(namespace: string, entries: Entries, op: Op, next: Entries, account: AccountKey, expiry: int)
    requires WellKeyed(entries, namespace) && Step(namespace, entries, op, next)
    requires Expires(entries, account, expiry) && Expires(next, account, expiry)
    ensures ProvesNoMore(next[account].branch, entries[account].branch)
  {
    StrengthIsProof(entries[account].branch, next[account].branch);
  }

  /** While an account's entry keeps one expiry, what it proves can only weaken. */
  lemma {:induction false} BranchOnlyWeakens(namespace: string, trace: seq<Entries>, ops: seq<Op>, i: nat, j: nat,
                                             account: AccountKey, expiry: int)
    requires Run(namespace, trace, ops) && trace[0] == map[] && i <= j < |trace|
    requires forall k :: i <= k <= j ==> Expires(trace[k], account, expiry)
    ensures Expires(trace[i], account, expiry) && Expires(trace[j], account, expiry)
    ensures ProvesNoMore(trace[j][account].branch, trace[i][account].branch)
    decreases j
  {
    hide Step;
    if i < j {
      BranchOnlyWeakens(namespace, trace, ops, i, j - 1, account, expiry);
      StoreStaysBounded(namespace, trace, ops, j - 1);
      StepOnlyWeakens(namespace, trace[j - 1], ops[j - 1], trace[j], account, expiry);
    }
  }

  lemma StepOnlyRecords(namespace: string, entries: Entries, op: Op, next: Entries, account: AccountKey)
    requires Step(namespace, entries, op, next) && !(op.Record? && op.entry.account == account)
    ensures account in next ==> account in entries && next[account] == entries[account]
  {
  }

  /** The snapshot has a rate-limit mark on the account's whole pool with the entry's expiry and evidence. */
  ghost predicate HasMark(snapshot: Namespace, entry: Provenance) {
    exists mark, value :: && mark in snapshot.marks && mark.key == MarkKey(entry.account, "pool", "account")
                          && value in mark.entries && IsValueOf(value, entry)
  }

  predicate IsValueOf(value: MarkEntry, entry: Provenance) {
    value.cause == "rate-limit" && value.until == entry.expiry && value.evidenceAt == entry.evidenceAt
  }

  lemma BackedHasMark(entry: Provenance, snapshot: Namespace)
    ensures Backed(entry, snapshot) <==> HasMark(snapshot, entry)
  {
    forall mark | mark in snapshot.marks
      ensures BackedBy(entry, mark)
         <==> && mark.key == MarkKey(entry.account, "pool", "account")
              && exists value :: value in mark.entries && IsValueOf(value, entry)
    {
      forall j | 0 <= j < |mark.entries|
        ensures IsValueOf(mark.entries[j], entry)
           <==> && mark.entries[j].cause == "rate-limit" && mark.entries[j].until == entry.expiry
                && mark.entries[j].evidenceAt == entry.evidenceAt
      {
      }
      hide IsValueOf;
    }
    hide BackedBy;
  }

  lemma ReconciledOnce(namespace: string, entries: Entries, op: Op, next: Entries, account: AccountKey)
    requires Step(namespace, entries, op, next) && op.Reconcile?
    ensures account in next
       <==> account in entries && entries[account].expiry > op.now && HasMark(op.snapshot, entries[account])
    ensures account in next ==> next[account] == entries[account]
  {
    hide Backed;
    hide HasMark;
    if account in entries { BackedHasMark(entries[account], op.snapshot); }
  }

  /**
   From a reconciliation on, until the account is recorded again, whatever entry it has is the one it
   had then, was running then and has its mark in the snapshot; and an entry that was running with
   its mark there is not lost to the reconciliation.
   */
  lemma {:induction false} ReconciledStayBacked(namespace: string, trace: seq<Entries>, ops: seq<Op>, i: nat, j: nat,
                                                account: AccountKey)
    requires Run(namespace, trace, ops) && i < j < |trace| && ops[i].Reconcile?
    requires forall k :: i < k < j && ops[k].Record? ==> ops[k].entry.account != account
    ensures account in trace[j] ==>
              && account in trace[i] && trace[j][account] == trace[i][account]
              && trace[j][account].expiry > ops[i].now && HasMark(ops[i].snapshot, trace[j][account])
    ensures account in trace[i] && trace[i][account].expiry > ops[i].now && HasMark(ops[i].snapshot, trace[i][account])
            ==> account in trace[i + 1] && trace[i + 1][account] == trace[i][account]
    decreases j
  {
    hide Step;
    hide HasMark;
    ReconciledOnce(namespace, trace[i], ops[i], trace[i + 1], account);
    if i + 1 < j {
      ReconciledStayBacked(namespace, trace, ops, i, j - 1, account);
      StepOnlyRecords(namespace, trace[j - 1], ops[j - 1], trace[j], account);
    }
  }

  /** The entry runs, and the account has no entry of the same expiry that proves no more than it. */
  predicate IsNews(entries: Entries, entry: Provenance, now: int) {
    && entry.expiry > now
    && !(entry.account in entries && entries[entry.account].expiry == entry.expiry
         && ProvesNoMore(entries[entry.account].branch, entry.branch))
  }

  ghost function StillRunning(entries: Entries, now: int): set<AccountKey> {
    set id | id in entries && entries[id].expiry > now
  }

  /**
   Recording drops what has run out. News of the store's own namespace takes the account's place; whatever
   else was running stays as it was, but for one entry, observed no later than any that stays, when there
   are more than 256. What is no news changes nothing else.
   */
  lemma RecordTakesNews(namespace: string, entries: Entries, entry: Provenance, now: int, next: Entries)
    requires Records(entries, namespace, entry, now, next) && entry.account.namespace == namespace
    ensures !IsNews(entries, entry, now) ==>
              next.Keys == StillRunning(entries, now) && forall id :: id in next ==> next[id] == entries[id]
    ensures IsNews(entries, entry, now) ==>
              var all := StillRunning(entries, now) + {entry.account};
              && (forall id :: id in next ==>
                    id in all && next[id] == if id == entry.account then entry else entries[id])
              && if |all| <= 256 then next.Keys == all
                 else exists lost ::
                   && lost in all && next.Keys == all - {lost}
                   && forall id :: id in next ==> ObservedAt(entries, entry, lost) <= next[id].observedAt
  {
    if entry.account in entries { StrengthIsProof(entries[entry.account].branch, entry.branch); }
    var pruned := Pruned(entries, now);
    assert pruned.Keys == StillRunning(entries, now);
    if IsNews(entries, entry, now) {
      var all := StillRunning(entries, now) + {entry.account};
      var added := pruned[entry.account := entry];
      assert added.Keys == all;
      if |all| > 256 {
        var oldest :| IsOldest(added, oldest) && next == added - {oldest};
        assert oldest in all && next.Keys == all - {oldest};
        assert added[oldest].observedAt == ObservedAt(entries, entry, oldest);
      }
    }
  }

  /** When the account's entry was observed, once `entry` is in. */
  function ObservedAt(entries: Entries, entry: Provenance, id: AccountKey): int
    requires id == entry.account || id in entries
  {
    if id == entry.account then entry.observedAt else entries[id].observedAt
  }

  /** A full store gives up the entry observed longest ago; a recent enough observation is never the one lost. */
  lemma RecentEntryIsKept(namespace: string, entries: Entries, entry: Provenance, now: int, next: Entries,
                          account: AccountKey)
    requires Records(entries, namespace, entry, now, next)
    requires account in entries && entries[account].expiry > now && account != entry.account
    requires account !in next
    ensures forall other :: other in next ==> entries[account].observedAt <= next[other].observedAt
    ensures entries[account].observedAt <= entry.observedAt
  {
    var added := Pruned(entries, now)[entry.account := entry];
    assert account in added && entry.account in added;
  }
}
