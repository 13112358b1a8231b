/**
 The writers of the account store: a whole save, which unites the caller's accounts with those on
 disk, an authoritative edit under the lock, a save of runtime state alone, and the first migration.
 */
module AccountStore {
  import opened Options
  import opened Text
  import opened Json
  import opened TokenMerge
  import opened AccountRoster

  /** Both files; a state file that is not there counts as empty. */
  datatype Files = Files(config: Config, state: State)

  /** The accounts whose state is saved. */
  datatype Scope = NoAccounts | AllAccounts | Only(ids: set<string>)

  function RowsOf(config: Config): seq<Json> {
    if config.Roster? then config.accounts else []
  }

  // ---------------------------------------------------------------------
  // What the writers write
  // ---------------------------------------------------------------------

  function Loaded(files: Files, context: Context): seq<Account>
    requires |context.uuids| >= |RowsOf(files.config)|
  {
    LoadRows(RowsOf(files.config), files.state, context)
  }

  function KeepNewerAccount(onDisk: Account, incoming: Account, now: real): Account {
    if onDisk.OAuth? && incoming.OAuth?
    then OAuth(incoming.id, WithCredentialOf(incoming.entry, NewerOf(onDisk.entry, incoming.entry, now)),
               incoming.settings)
    else incoming
  }

  function IndexOf(accounts: seq<Account>, id: string): (i: nat)
    ensures i <= |accounts|
    ensures i < |accounts| ==> accounts[i].id == id
    ensures forall k :: 0 <= k < i ==> accounts[k].id != id
  {
    if accounts == [] || accounts[0].id == id then 0 else 1 + IndexOf(accounts[1..], id)
  }

  /** Sets the account of an id, in its old place or at the end. */
  function SetAccount(accounts: seq<Account>, account: Account): seq<Account> {
    var i := IndexOf(accounts, account.id);
    if i < |accounts| then accounts[i := account] else accounts + [account]
  }

  function SetAll(accounts: seq<Account>, more: seq<Account>): seq<Account> {
    if more == [] then accounts else SetAccount(SetAll(accounts, more[..|more| - 1]), more[|more| - 1])
  }

  /** Sets the account of an id, with the newer credential of the two if there was one. */
  function Unite(accounts: seq<Account>, account: Account, now: real): seq<Account> {
    var i := IndexOf(accounts, account.id);
    if i < |accounts| then accounts[i := KeepNewerAccount(accounts[i], account, now)] else accounts + [account]
  }

  function UniteAll(accounts: seq<Account>, incoming: seq<Account>, now: real): seq<Account> {
    if incoming == [] then accounts
    else Unite(UniteAll(accounts, incoming[..|incoming| - 1], now), incoming[|incoming| - 1], now)
  }

  /** The first `i` accounts set, and the first `i` united. */
  function SetSoFar(more: seq<Account>, i: nat): seq<Account>
    requires i <= |more|
  {
    SetAll([], more[..i])
  }

  function UnitedSoFar(accounts: seq<Account>, incoming: seq<Account>, now: real, i: nat): seq<Account>
    requires i <= |incoming|
  {
    UniteAll(accounts, incoming[..i], now)
  }

  lemma SetEnds(more: seq<Account>)
    ensures SetSoFar(more, 0) == [] && SetSoFar(more, |more|) == SetAll([], more)
  {
    assert more[..0] == [] && more[..|more|] == more;
  }

  lemma SetStep(more: seq<Account>, i: nat)
    requires i < |more|
    ensures SetSoFar(more, i + 1) == SetAccount(SetSoFar(more, i), more[i])
  {
    hide SetAccount;
    assert more[..i + 1][..i] == more[..i];
  }

  lemma UniteEnds(accounts: seq<Account>, incoming: seq<Account>, now: real)
    ensures UnitedSoFar(accounts, incoming, now, 0) == accounts
    ensures UnitedSoFar(accounts, incoming, now, |incoming|) == UniteAll(accounts, incoming, now)
  {
    assert incoming[..0] == [] && incoming[..|incoming|] == incoming;
  }

  lemma UniteStep(accounts: seq<Account>, incoming: seq<Account>, now: real, i: nat)
    requires i < |incoming|
    ensures UnitedSoFar(accounts, incoming, now, i + 1)
         == Unite(UnitedSoFar(accounts, incoming, now, i), incoming[i], now)
  {
    hide Unite;
    assert incoming[..i + 1][..i] == incoming[..i];
  }

  /** The accounts of a whole save; without a roster on disk, the caller's. */
  function MergedForSave(files: Files, storage: seq<Account>, context: Context, now: real): seq<Account>
    requires |context.uuids| >= |RowsOf(files.config)|
  {
    if files.config.Roster? then UniteAll(SetAll([], Loaded(files, context)), storage, now) else storage
  }

  /** Both files once the accounts are written over what is there. */
  function Written(files: Files, loaded: set<string>, allowDrop: set<string>, accounts: seq<Account>): Files {
    Files(Roster(RowsToWrite(RowsOf(files.config), loaded, allowDrop, accounts), true), StateRows(accounts))
  }

  function SavedAccounts(files: Files, storage: seq<Account>, context: Context, now: real): Files
    requires |context.uuids| >= |RowsOf(files.config)|
  {
    Written(files, Ids(Loaded(files, context)), {}, MergedForSave(files, storage, context, now))
  }

  function Mutated(files: Files, next: seq<Account>, allowDrop: set<string>, context: Context): Files
    requires |context.uuids| >= |RowsOf(files.config)|
  {
    Written(files, Ids(Loaded(files, context)), allowDrop, next)
  }

  predicate InScope(scope: Scope, id: string) {
    scope.Only? ==> id in scope.ids
  }

  /** No roster can be read, or the id is on it. */
  predicate OnRoster(config: Config, id: string) {
    config.Roster? ==> id in RosterIds(config.accounts)
  }

  function StateMerged(state: State, config: Config, storage: seq<Account>, scope: Scope, now: real): State {
    if storage == [] then state
    else
      var n := |storage| - 1;
      var front := StateMerged(state, config, storage[..n], scope, now);
      var id := storage[n].id;
      if InScope(scope, id) && OnRoster(config, id) then
        front[id := if id in front then Merged(front[id], AccountRuntimeState(storage[n]), now)
                    else AccountRuntimeState(storage[n])]
      else front
  }

  /** What the first `i` accounts of a save leave. */
  function MergedSoFar(state: State, config: Config, storage: seq<Account>, scope: Scope, now: real, i: nat): State
    requires i <= |storage|
  {
    StateMerged(state, config, storage[..i], scope, now)
  }

  lemma MergeEnds(state: State, config: Config, storage: seq<Account>, scope: Scope, now: real)
    ensures MergedSoFar(state, config, storage, scope, now, 0) == state
    ensures MergedSoFar(state, config, storage, scope, now, |storage|)
         == StateMerged(state, config, storage, scope, now)
  {
    assert storage[..0] == [] && storage[..|storage|] == storage;
  }

  lemma MergeStep(state: State, config: Config, storage: seq<Account>, scope: Scope, now: real, i: nat)
    requires i < |storage|
    ensures var front, id := MergedSoFar(state, config, storage, scope, now, i), storage[i].id;
            MergedSoFar(state, config, storage, scope, now, i + 1)
            == if !(InScope(scope, id) && OnRoster(config, id)) then front
               else front[id := if id in front then Merged(front[id], AccountRuntimeState(storage[i]), now)
                                else AccountRuntimeState(storage[i])]
  {
    assert storage[..i + 1][..i] == storage[..i];
  }

  /** The account state file after runtime state was saved: no id is left that is off the roster. */
  function SavedState(files: Files, storage: seq<Account>, scope: Scope, now: real): State {
    if scope.NoAccounts? then files.state
    else
      var merged := StateMerged(files.state, files.config, storage, scope, now);
      map id | id in merged && OnRoster(files.config, id) && (scope.Only? && id in scope.ids ==> id in Ids(storage))
        :: merged[id]
  }

  function Migrated(files: Files, hasToken: bool): Files {
    if (files.config.Absent? || !files.config.isStore) && hasToken
    then Files(Roster([], true), map[]) else files
  }

  /** Dropping what is out of scope and then what is off the roster leaves what is to be saved. */
  lemma PrunedIsSaved(files: Files, storage: seq<Account>, scope: Scope, now: real, merged: State, scoped: State,
                      pruned: State)
    requires !scope.NoAccounts? && merged == StateMerged(files.state, files.config, storage, scope, now)
    requires scoped == if scope.Only?
                       then map id | id in merged && (id in scope.ids ==> id in Ids(storage)) :: merged[id] else merged
    requires pruned == if files.config.Roster?
                       then map id | id in scoped && id in RosterIds(files.config.accounts) :: scoped[id] else scoped
    ensures pruned == SavedState(files, storage, scope, now)
  {
    hide StateMerged;
    assert forall id :: id in pruned <==>
             id in merged && OnRoster(files.config, id) && (scope.Only? && id in scope.ids ==> id in Ids(storage));
  }

  // ---------------------------------------------------------------------
  // The writers
  // ---------------------------------------------------------------------

  method CollectConfigRosterIds(config: Config) returns (ids: Option<seq<string>>)
    ensures ids == if config.Roster? then Some(RosterIds(config.accounts)) else None
  {
    if !config.Roster? { return None; }
    var collected: seq<string> := [];
    var rows := config.accounts;
    var i := 0;
    while i < |rows|
      invariant 0 <= i <= |rows|
      invariant collected == RosterIds(rows[..i])
    {
      var row := rows[i];
      assert rows[..i + 1][..i] == rows[..i];
      i := i + 1;
      if !row.Obj? || GetStr(row.fields, Id).None? { continue; }
      var trimmed := Trim(GetStr(row.fields, Id).value);
      if trimmed == "" { continue; }
      if trimmed !in collected { collected := collected + [trimmed]; }
    }
    assert rows[..i] == rows;
    return Some(collected);
  }

  method PickRawRosterEntriesForPreservation(rows: seq<Json>, ids: seq<string>, loaded: set<string>,
                                             allowDrop: set<string>) returns (picked: seq<Json>)
    ensures picked == Picked(rows, ids, loaded, allowDrop)
  {
    picked := [];
    var i := 0;
    while i < |ids|
      invariant 0 <= i <= |ids|
      invariant picked == Picked(rows, ids[..i], loaded, allowDrop)
    {
      var id := ids[i];
      assert ids[..i + 1][..i] == ids[..i];
      i := i + 1;
      if id in loaded { continue; }
      if id in allowDrop { continue; }
      var row := FirstRow(rows, id);
      if row.Some? { picked := picked + [row.value]; }
    }
    assert ids[..i] == ids;
  }

  /** The rows the accounts do not write already. */
  method DropWritten(preserved: seq<Json>, written: set<string>) returns (additions: seq<Json>)
    ensures additions == NotWritten(preserved, written)
  {
    additions := [];
    var i := 0;
    while i < |preserved|
      invariant 0 <= i <= |preserved|
      invariant additions == NotWritten(preserved[..i], written)
    {
      var row := preserved[i];
      assert preserved[..i + 1][..i] == preserved[..i];
      i := i + 1;
      if !row.Obj? || GetStr(row.fields, Id).None? { continue; }
      if Trim(GetStr(row.fields, Id).value) !in written { additions := additions + [row]; }
    }
    assert preserved[..i] == preserved;
  }

  method MergeStorageForSave(latest: Option<seq<Account>>, incoming: seq<Account>, now: real)
    returns (accounts: seq<Account>)
    ensures accounts == if latest.None? then incoming else UniteAll(SetAll([], latest.value), incoming, now)
  {
    if latest.None? { return incoming; }
    hide *;
    accounts := [];
    SetEnds(latest.value);
    var i := 0;
    while i < |latest.value|
      invariant 0 <= i <= |latest.value|
      invariant accounts == SetSoFar(latest.value, i)
    {
      SetStep(latest.value, i);
      accounts := SetAccount(accounts, latest.value[i]);
      i := i + 1;
    }
    UniteEnds(accounts, incoming, now);
    ghost var seeded := accounts;
    i := 0;
    while i < |incoming|
      invariant 0 <= i <= |incoming|
      invariant accounts == UnitedSoFar(seeded, incoming, now, i)
    {
      UniteStep(seeded, incoming, now, i);
      accounts := MergeAccountForSave(accounts, incoming[i], now);
      i := i + 1;
    }
  }

  /** One round of its second loop. */
  method MergeAccountForSave(accounts: seq<Account>, incoming: Account, now: real) returns (merged: seq<Account>)
    ensures merged == Unite(accounts, incoming, now)
  {
    hide NewerOf;
    hide WithCredentialOf;
    var account := incoming;
    var at := IndexOf(accounts, account.id);
    if at == |accounts| { return accounts + [account]; }
    var onDisk := accounts[at];
    if onDisk.OAuth? && account.OAuth? {
      var chosen := KeepNewerCredential(onDisk.entry, account.entry, now);
      account := OAuth(account.id, chosen, account.settings);
    }
    return accounts[at := account];
  }

  class Store {
    var config: Config
    var state: State

    function Contents(): Files
      reads this
    {
      Files(config, state)
    }

    constructor (config: Config, state: State)
      ensures Contents() == Files(config, state)
    {
      this.config, this.state := config, state;
    }

    method LoadAccounts(context: Context) returns (accounts: Option<seq<Account>>)
      requires |context.uuids| >= |RowsOf(config)|
      ensures accounts == if config.Roster? then Some(Loaded(Contents(), context)) else None
    {
      if !config.Roster? { return None; }
      var rows := config.accounts;
      var loaded: seq<Account> := [];
      var i := 0;
      while i < |rows|
        invariant 0 <= i <= |rows|
        invariant loaded == LoadRows(rows[..i], state, context)
      {
        assert rows[..i + 1][..i] == rows[..i];
        var account := NormalizeAccount(MergedRow(rows[i], state), context.uuids[i], context);
        if account.Some? { loaded := loaded + [account.value]; }
        i := i + 1;
      }
      assert rows[..i] == rows;
      return Some(loaded);
    }

    /** Writes the accounts and, after them, the rows that did not load. */
    method Write(accounts: seq<Account>, loaded: set<string>, allowDrop: set<string>)
      modifies this
      ensures Contents() == Written(old(Contents()), loaded, allowDrop, accounts)
    {
      var rosterIds := CollectConfigRosterIds(config);
      var additions: seq<Json> := [];
      if rosterIds.Some? {
        var picked := PickRawRosterEntriesForPreservation(RowsOf(config), rosterIds.value, loaded, allowDrop);
        additions := DropWritten(picked, WrittenIds(ConfigRows(accounts)));
      }
      config := Roster(ConfigRows(accounts) + additions, true);
      state := map[];
      var i := 0;
      while i < |accounts|
        invariant 0 <= i <= |accounts|
        invariant state == StateRows(accounts[..i])
        invariant config == Roster(ConfigRows(accounts) + additions, true)
      {
        assert accounts[..i + 1][..i] == accounts[..i];
        state := state[accounts[i].id := AccountRuntimeState(accounts[i])];
        i := i + 1;
      }
      assert accounts[..i] == accounts;
    }

    method SaveAccounts(storage: seq<Account>, context: Context, now: real)
      requires |context.uuids| >= |RowsOf(config)|
      modifies this
      ensures Contents() == SavedAccounts(old(Contents()), storage, context, now)
    {
      var latest := LoadAccounts(context);
      var merged := MergeStorageForSave(latest, storage, now);
      var loaded := if latest.Some? then Ids(latest.value) else {};
      Write(merged, loaded, {});
    }

    method MutateAccounts(mutate: seq<Account> -> Option<seq<Account>>, allowDrop: set<string>, context: Context)
      returns (result: seq<Account>)
      requires |context.uuids| >= |RowsOf(config)|
      modifies this
      ensures var current := Loaded(old(Contents()), context);
              result == if mutate(current).Some? then mutate(current).value else current
      ensures Contents() == Mutated(old(Contents()), result, allowDrop, context)
    {
      var latest := LoadAccounts(context);
      var current := if latest.Some? then latest.value else [];
      var next := mutate(current);
      result := if next.Some? then next.value else current;
      Write(result, Ids(current), allowDrop);
    }

    method SaveAccountState(storage: seq<Account>, scope: Scope, now: real)
      modifies this`state
      ensures state == SavedState(old(Contents()), storage, scope, now)
    {
      if scope.NoAccounts? { return; }
      var roster := CollectConfigRosterIds(config);
      hide StateMerged;
      hide MergedSoFar;
      hide Merged;
      hide AccountRuntimeState;
      hide RosterIds;
      MergeEnds(state, config, storage, scope, now);
      var next := state;
      var i := 0;
      while i < |storage|
        invariant 0 <= i <= |storage|
        invariant next == MergedSoFar(state, config, storage, scope, now, i)
        invariant Contents() == old(Contents())
      {
        var account := storage[i];
        MergeStep(state, config, storage, scope, now, i);
        i := i + 1;
        if scope.Only? && account.id !in scope.ids { continue; }
        if roster.Some? && account.id !in roster.value { continue; }
        var merged := MergeAccountRuntimeState(if account.id in next then Some(next[account.id]) else None,
                                               AccountRuntimeState(account), now);
        next := next[account.id := merged];
      }
      ghost var merged := next;
      if scope.Only? {
        next := map id | id in next && (id in scope.ids ==> id in Ids(storage)) :: next[id];
      }
      ghost var scoped := next;
      if roster.Some? {
        next := map id | id in next && id in roster.value :: next[id];
      }
      PrunedIsSaved(Contents(), storage, scope, now, merged, scoped, next);
      state := next;
    }

    method MigrateIfNeeded(hasToken: bool)
      modifies this
      ensures Contents() == Migrated(old(Contents()), hasToken)
    {
      if !config.Absent? && config.isStore { return; }
      if !hasToken { return; }
      config, state := Roster([], true), map[];
    }
  }
}
