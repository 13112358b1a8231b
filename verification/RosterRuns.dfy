/**
 What any sequence of writers does to the account store: which ids the roster may lose, which rows are
 kept as they are, and that no account keeps runtime state once it is off the roster.
 */
module RosterRuns {
  import opened Options
  import opened Text
  import opened Json
  import opened TokenMerge
  import opened AccountRoster
  import opened AccountStore

  datatype Op =
    | Save(storage: seq<Account>, context: Context, now: real)
    | Mutate(next: seq<Account>, allowDrop: set<string>, context: Context)
    | SaveState(storage: seq<Account>, scope: Scope, now: real)
    | Migrate(hasToken: bool)

  function RosterOf(config: Config): set<string> {
    set id | id in RosterIds(RowsOf(config))
  }

  predicate Allowed(files: Files, op: Op) {
    (op.Save? || op.Mutate?) ==> |op.context.uuids| >= |RowsOf(files.config)|
  }

  function Applied(files: Files, op: Op): Files
    requires Allowed(files, op)
  {
    match op
    case Save(storage, context, now) => SavedAccounts(files, storage, context, now)
    case Mutate(next, allowDrop, context) => Mutated(files, next, allowDrop, context)
    case SaveState(storage, scope, now) => files.(state := SavedState(files, storage, scope, now))
    case Migrate(hasToken) => Migrated(files, hasToken)
  }

  ghost predicate Run(trace: seq<Files>, ops: seq<Op>) {
    && |trace| == |ops| + 1
    && forall i :: 0 <= i < |ops| ==> Allowed(trace[i], ops[i]) && trace[i + 1] == Applied(trace[i], ops[i])
  }

  // ---------------------------------------------------------------------
  // Uniting accounts
  // ---------------------------------------------------------------------

  lemma SetKeepsIds(accounts: seq<Account>, account: Account, now: real)
    ensures Ids(SetAccount(accounts, account)) == Ids(accounts) + {account.id}
    ensures Ids(Unite(accounts, account, now)) == Ids(accounts) + {account.id}
  {
    var i := IndexOf(accounts, account.id);
    var placed, united := SetAccount(accounts, account), Unite(accounts, account, now);
    IdAt(placed, i);
    IdAt(united, i);
    forall k | 0 <= k < |accounts| ensures accounts[k].id in Ids(placed) && accounts[k].id in Ids(united) {
      IdAt(placed, k);
      IdAt(united, k);
      assert k != i ==> placed[k] == accounts[k] && united[k] == accounts[k];
    }
  }

  lemma IdAt(accounts: seq<Account>, i: nat)
    ensures i < |accounts| ==> accounts[i].id in Ids(accounts)
  {
  }

  lemma {:induction false} SetAllIds(accounts: seq<Account>, more: seq<Account>)
    ensures Ids(SetAll(accounts, more)) == Ids(accounts) + Ids(more)
    decreases |more|
  {
    if more != [] {
      var front, last := more[..|more| - 1], more[|more| - 1];
      assert more == front + [last];
      SetAllIds(accounts, front);
      SetKeepsIds(SetAll(accounts, front), last, 0.0);
    }
  }

  lemma {:induction false} UniteAllIds(accounts: seq<Account>, incoming: seq<Account>, now: real)
    ensures Ids(UniteAll(accounts, incoming, now)) == Ids(accounts) + Ids(incoming)
    decreases |incoming|
  {
    if incoming != [] {
      var front, last := incoming[..|incoming| - 1], incoming[|incoming| - 1];
      assert incoming == front + [last];
      UniteAllIds(accounts, front, now);
      SetKeepsIds(UniteAll(accounts, front, now), last, now);
    }
  }

  /** A whole save loses no account that loaded. */
  lemma MergedKeepsLoaded(files: Files, storage: seq<Account>, context: Context, now: real)
    requires |context.uuids| >= |RowsOf(files.config)|
    ensures Ids(Loaded(files, context)) <= Ids(MergedForSave(files, storage, context, now))
  {
    if files.config.Roster? {
      SetAllIds([], Loaded(files, context));
      UniteAllIds(SetAll([], Loaded(files, context)), storage, now);
    }
  }

  // ---------------------------------------------------------------------
  // The roster
  // ---------------------------------------------------------------------

  /** The operation takes the id off the roster. */
  predicate Drops(files: Files, op: Op, id: string)
    requires Allowed(files, op)
  {
    match op
    case Mutate(next, allowDrop, context) =>
      id !in WrittenIds(ConfigRows(next)) && id in Ids(Loaded(files, context)) + allowDrop
    case Migrate(hasToken) => hasToken && !files.config.Absent? && !files.config.isStore
    case _ => false
  }

  lemma {:induction false} RosterIdsProper(rows: seq<Json>)
    ensures forall id :: id in RosterIds(rows) ==> Proper(id)
    decreases |rows|
  {
    if rows != [] {
      RosterIdsProper(rows[..|rows| - 1]);
      RosterIdIsProper(rows[|rows| - 1]);
    }
  }

  /** An id leaves the roster exactly when the operation drops it; a whole save and a state save never do. */
  lemma StepDropsExactly(files: Files, op: Op, id: string)
    requires Allowed(files, op) && id in RosterOf(files.config)
    ensures id !in RosterOf(Applied(files, op).config) <==> Drops(files, op, id)
  {
    var rows := RowsOf(files.config);
    match op
    case Save(storage, context, now) =>
      var loaded, merged := Ids(Loaded(files, context)), MergedForSave(files, storage, context, now);
      MergedKeepsLoaded(files, storage, context, now);
      LeavesExactlyWhen(rows, loaded, {}, merged, id);
      RosterIdsProper(rows);
      WrittenAre(merged);
    case Mutate(next, allowDrop, context) =>
      LeavesExactlyWhen(rows, Ids(Loaded(files, context)), allowDrop, next, id);
    case SaveState(_, _, _) =>
    case Migrate(_) =>
  }

  /** An id stays on the roster through every run that does not drop it. */
  lemma {:induction false} RosterIdSurvives(trace: seq<Files>, ops: seq<Op>, i: nat, j: nat, id: string)
    requires Run(trace, ops) && i <= j < |trace| && id in RosterOf(trace[i].config)
    requires forall k :: i <= k < j ==> !Drops(trace[k], ops[k], id)
    ensures id in RosterOf(trace[j].config)
    decreases j
  {
    hide Applied;
    hide Drops;
    hide RosterOf;
    if i < j {
      RosterIdSurvives(trace, ops, i, j - 1, id);
      StepDropsExactly(trace[j - 1], ops[j - 1], id);
    }
  }

  // ---------------------------------------------------------------------
  // What becomes of one account
  // ---------------------------------------------------------------------

  ghost predicate DistinctIds(accounts: seq<Account>) {
    forall i, j :: 0 <= i < j < |accounts| ==> accounts[i].id != accounts[j].id
  }

  function Find(accounts: seq<Account>, id: string): Option<Account> {
    var i := IndexOf(accounts, id);
    if i < |accounts| then Some(accounts[i]) else None
  }

  /** The account of an id once the caller's is united with the one there was. */
  function FoundAfter(before: Option<Account>, given: Option<Account>, now: real): Option<Account> {
    if given.None? then before
    else if before.None? then given
    else Some(KeepNewerAccount(before.value, given.value, now))
  }

  lemma UniteRow(accounts: seq<Account>, account: Account, now: real, id: string)
    ensures Find(Unite(accounts, account, now), id) == FoundAfter(Find(accounts, id),
              if id == account.id then Some(account) else None, now)
  {
    hide KeepNewerAccount;
    var united, i, k := Unite(accounts, account, now), IndexOf(accounts, account.id), IndexOf(accounts, id);
    KeepsId(accounts, account, now);
    FindAt(united, if id == account.id then i else if k < |accounts| then k else |united|, id);
  }

  lemma KeepsId(accounts: seq<Account>, account: Account, now: real)
    ensures forall a: Account :: a.id == account.id ==> KeepNewerAccount(a, account, now).id == account.id
  {
  }

  lemma FindAt(accounts: seq<Account>, i: nat, id: string)
    requires i <= |accounts| && (i < |accounts| ==> accounts[i].id == id)
    requires forall k :: 0 <= k < i ==> accounts[k].id != id
    ensures IndexOf(accounts, id) == i
  {
  }

  /** In a whole save each account keeps the newer credential, and those the caller does not have stay. */
  lemma {:induction false} UnitedRows(accounts: seq<Account>, incoming: seq<Account>, now: real, id: string)
    requires DistinctIds(incoming)
    ensures Find(UniteAll(accounts, incoming, now), id) == FoundAfter(Find(accounts, id), Find(incoming, id), now)
    decreases |incoming|
  {
    hide KeepNewerAccount;
    if incoming != [] {
      var front, last := incoming[..|incoming| - 1], incoming[|incoming| - 1];
      UnitedRows(accounts, front, now, id);
      UniteRow(UniteAll(accounts, front, now), last, now, id);
      FindLast(incoming, id);
    }
  }

  /**
   The account a whole save leaves for one both sides have: the caller's, with the token a save of state would
   keep if both have tokens.
   */
  lemma UnitedAccount(onDisk: Account, given: Account, now: real, f: Key)
    ensures var united := KeepNewerAccount(onDisk, given, now);
            && united.id == given.id && united.settings == given.settings
            && (!onDisk.OAuth? || !given.OAuth? ==> united == given)
            && (onDisk.OAuth? && given.OAuth? ==>
                  && united.OAuth?
                  && HasTokenOf(united.entry, Merged(onDisk.entry, given.entry, now))
                  && (f !in {Access, Refresh, Expires, LastRefreshedAt, LastRefreshError} ==>
                        SameField(united.entry, given.entry, f)))
  {
    hide Merged;
    hide NewerOf;
    hide HasTokenOf;
    hide WithCredentialOf;
    var source := NewerOf(onDisk.entry, given.entry, now);
    MergeHasTokenOf(onDisk.entry, given.entry, now);
    TokenTaken(given.entry, source, f);
    SameToken(WithCredentialOf(given.entry, source), Merged(onDisk.entry, given.entry, now), source);
  }

  lemma FindLast(accounts: seq<Account>, id: string)
    requires accounts != [] && DistinctIds(accounts)
    ensures var front, last := accounts[..|accounts| - 1], accounts[|accounts| - 1];
            && Find(accounts, id) == (if id == last.id then Some(last) else Find(front, id))
            && Find(front, last.id).None?
  {
    var n := |accounts| - 1;
    var k := IndexOf(accounts[..n], id);
    FindAt(accounts, if k < n then k else if accounts[n].id == id then n else n + 1, id);
    var m := IndexOf(accounts[..n], accounts[n].id);
    assert forall i :: 0 <= i < n ==> accounts[..n][i] == accounts[i];
  }

  /** A save of runtime state merges each account in scope and on the roster into what was stored. */
  lemma {:induction false} MergedStateRows(state: State, config: Config, storage: seq<Account>, scope: Scope, now: real,
                                           id: string)
    requires DistinctIds(storage)
    ensures var merged, given := StateMerged(state, config, storage, scope, now), Find(storage, id);
            if given.Some? && InScope(scope, id) && OnRoster(config, id)
            then id in merged
                 && merged[id] == if id in state then Merged(state[id], AccountRuntimeState(given.value), now)
                                  else AccountRuntimeState(given.value)
            else (id in merged <==> id in state) && (id in state ==> merged[id] == state[id])
    decreases |storage|
  {
    hide Merged;
    hide AccountRuntimeState;
    hide OnRoster;
    if storage != [] {
      var front := storage[..|storage| - 1];
      MergedStateRows(state, config, front, scope, now, id);
      FindLast(storage, id);
    }
  }

  // ---------------------------------------------------------------------
  // Rows that do not load
  // ---------------------------------------------------------------------

  /** The operation neither loads, writes nor drops the id. */
  predicate Ignores(files: Files, op: Op, id: string)
    requires Allowed(files, op)
  {
    match op
    case Save(storage, context, now) =>
      id !in WrittenIds(ConfigRows(MergedForSave(files, storage, context, now))) + Ids(Loaded(files, context))
    case Mutate(next, allowDrop, context) =>
      id !in WrittenIds(ConfigRows(next)) + Ids(Loaded(files, context)) + allowDrop
    case SaveState(_, _, _) => true
    case Migrate(_) => !Drops(files, op, id)
  }

  lemma {:induction false} FirstOfJoined(a: seq<Json>, b: seq<Json>, id: string)
    requires FirstRow(a, id).None?
    ensures FirstRow(a + b, id) == FirstRow(b, id)
    decreases |a|
  {
    if a == [] {
      assert a + b == b;
    } else {
      assert (a + b)[1..] == a[1..] + b;
      FirstOfJoined(a[1..], b, id);
    }
  }

  lemma {:induction false} FirstOfDistinct(rows: seq<Json>, i: nat, id: string)
    requires DistinctRows(rows) && i < |rows| && RosterId(rows[i]) == Some(id)
    ensures FirstRow(rows, id) == Some(rows[i])
    decreases |rows|
  {
    if i > 0 {
      assert rows[1..][i - 1] == rows[i];
      FirstOfDistinct(rows[1..], i - 1, id);
    }
  }

  lemma WriteKeepsRow(rows: seq<Json>, loaded: set<string>, allowDrop: set<string>, accounts: seq<Account>, id: string)
    requires id in RosterIds(rows) && id !in WrittenIds(ConfigRows(accounts)) + loaded + allowDrop
    ensures FirstRow(RowsToWrite(rows, loaded, allowDrop, accounts), id) == FirstRow(rows, id)
  {
    var written, additions := ConfigRows(accounts), Additions(rows, loaded, allowDrop, accounts);
    AdditionsArePreserved(rows, loaded, allowDrop, accounts);
    RosterIdsAre(written);
    FirstRowIs(written, id);
    FirstOfJoined(written, additions, id);
    var row :| row in additions && RosterId(row) == Some(id);
    var i :| 0 <= i < |additions| && additions[i] == row;
    FirstOfDistinct(additions, i, id);
  }

  /** A row that does not load is carried along unchanged until its id is loaded, written or dropped. */
  lemma {:induction false} UnloadedRowIsKept(trace: seq<Files>, ops: seq<Op>, i: nat, j: nat, id: string)
    requires Run(trace, ops) && i <= j < |trace| && id in RosterOf(trace[i].config)
    requires forall k :: i <= k < j ==> Ignores(trace[k], ops[k], id)
    ensures id in RosterOf(trace[j].config)
    ensures FirstRow(RowsOf(trace[j].config), id) == FirstRow(RowsOf(trace[i].config), id)
    decreases j
  {
    hide Applied;
    hide Ignores;
    hide RosterOf;
    if i < j {
      UnloadedRowIsKept(trace, ops, i, j - 1, id);
      IgnoredRowIsKept(trace[j - 1], ops[j - 1], id);
    }
  }

  lemma IgnoredRowIsKept(files: Files, op: Op, id: string)
    requires Allowed(files, op) && id in RosterOf(files.config) && Ignores(files, op, id)
    ensures id in RosterOf(Applied(files, op).config)
    ensures FirstRow(RowsOf(Applied(files, op).config), id) == FirstRow(RowsOf(files.config), id)
  {
    StepDropsExactly(files, op, id);
    var rows := RowsOf(files.config);
    match op
    case Save(storage, context, now) =>
      WriteKeepsRow(rows, Ids(Loaded(files, context)), {}, MergedForSave(files, storage, context, now), id);
    case Mutate(next, allowDrop, context) => WriteKeepsRow(rows, Ids(Loaded(files, context)), allowDrop, next, id);
    case SaveState(_, _, _) =>
    case Migrate(_) =>
  }

  // ---------------------------------------------------------------------
  // State of accounts off the roster
  // ---------------------------------------------------------------------

  /** Every account with runtime state is on the roster, if there is one. */
  ghost predicate StateOnRoster(files: Files) {
    files.config.Roster? ==> forall id :: id in files.state ==> id in RosterOf(files.config)
  }

  ghost predicate ProperIds(accounts: seq<Account>) {
    forall id :: id in Ids(accounts) ==> Proper(id)
  }

  lemma {:induction false} StateRowsKeys(accounts: seq<Account>)
    ensures StateRows(accounts).Keys == Ids(accounts)
    decreases |accounts|
  {
    if accounts != [] {
      var n := |accounts| - 1;
      StateRowsKeys(accounts[..n]);
      assert accounts == accounts[..n] + [accounts[n]];
    }
  }

  lemma {:induction false} StateRow(accounts: seq<Account>, i: nat)
    requires DistinctIds(accounts) && i < |accounts|
    ensures accounts[i].id in StateRows(accounts)
    ensures StateRows(accounts)[accounts[i].id] == AccountRuntimeState(accounts[i])
    decreases |accounts|
  {
    if i < |accounts| - 1 { StateRow(accounts[..|accounts| - 1], i); }
  }

  /** After accounts are written, no state is off the roster exactly when all their ids are proper. */
  lemma WrittenOnRosterExactlyWhen(files: Files, loaded: set<string>, allowDrop: set<string>, accounts: seq<Account>)
    ensures StateOnRoster(Written(files, loaded, allowDrop, accounts)) <==> ProperIds(accounts)
  {
    var rows := RowsToWrite(RowsOf(files.config), loaded, allowDrop, accounts);
    StateRowsKeys(accounts);
    WrittenAre(accounts);
    RosterIdsProper(rows);
    forall id | id in WrittenIds(ConfigRows(accounts)) ensures id in RosterIds(rows) {
      RosterOfJoined(ConfigRows(accounts), Additions(RowsOf(files.config), loaded, allowDrop, accounts), id);
    }
  }

  /** An account written under an id with space before it has state under an id the roster does not have. */
  lemma PaddedIdIsOffRoster(entry: Entry)
    ensures var accounts := [OAuth(" a", entry, map[])];
            !StateOnRoster(Written(Files(Absent, map[]), {}, {}, accounts))
  {
    var accounts := [OAuth(" a", entry, map[])];
    assert Trim(" a") == "a" by {
      assert TrimStart(" a") == TrimStart("a") == "a";
    }
    assert accounts[0].id in Ids(accounts) && !Proper(" a");
    WrittenOnRosterExactlyWhen(Files(Absent, map[]), {}, {}, accounts);
  }

  /** The operation writes accounts under proper ids only. */
  ghost predicate WritesProperIds(files: Files, op: Op)
    requires Allowed(files, op)
  {
    match op
    case Save(storage, context, now) => ProperIds(MergedForSave(files, storage, context, now))
    case Mutate(next, _, _) => ProperIds(next)
    case _ => true
  }

  lemma StepKeepsStateOnRoster(files: Files, op: Op)
    requires Allowed(files, op) && StateOnRoster(files) && WritesProperIds(files, op)
    ensures StateOnRoster(Applied(files, op))
  {
    match op
    case Save(storage, context, now) =>
      WrittenOnRosterExactlyWhen(files, Ids(Loaded(files, context)), {}, MergedForSave(files, storage, context, now));
    case Mutate(next, allowDrop, context) =>
      WrittenOnRosterExactlyWhen(files, Ids(Loaded(files, context)), allowDrop, next);
    case SaveState(_, _, _) =>
    case Migrate(_) =>
  }

  /** A save of runtime state drops the state of every account off the roster, whatever was there. */
  lemma SavedStateIsOnRoster(files: Files, storage: seq<Account>, scope: Scope, now: real)
    requires !scope.NoAccounts?
    ensures StateOnRoster(files.(state := SavedState(files, storage, scope, now)))
  {
  }

  // ---------------------------------------------------------------------
  // A save of runtime state, row by row
  // ---------------------------------------------------------------------

  /** The config file has a roster that does not list the id. */
  ghost predicate Unlisted(config: Config, id: string) {
    config.Roster? && forall row: Fields ::
      Obj(row) in config.accounts && Id in row && row[Id].Str? && Trim(row[Id].s) != "" ==> Trim(row[Id].s) != id
  }

  lemma UnlistedExactlyWhen(config: Config, id: string)
    ensures Unlisted(config, id) <==> !OnRoster(config, id)
  {
    if config.Roster? {
      RosterIdsAre(config.accounts);
      forall i | 0 <= i < |config.accounts| && RosterId(config.accounts[i]) == Some(id) ensures !Unlisted(config, id) {
        assert Obj(config.accounts[i].fields) in config.accounts;
      }
      if !Unlisted(config, id) {
        var row: Fields :| Obj(row) in config.accounts && Id in row && row[Id].Str? && Trim(row[Id].s) != ""
                           && Trim(row[Id].s) == id;
        var i :| 0 <= i < |config.accounts| && config.accounts[i] == Obj(row);
        assert RosterId(config.accounts[i]) == Some(id);
      }
    }
  }

  /** The saves of the id's copies among the accounts; a corrupt account's copy is empty. */
  function CopiesOf(accounts: seq<Account>, id: string, now: real): seq<TokenMerge.Save> {
    if accounts == [] then []
    else
      var front, last := CopiesOf(accounts[..|accounts| - 1], id, now), accounts[|accounts| - 1];
      if last.id != id then front
      else front + [TokenMerge.Save(if last.Corrupt? then map[] else last.entry, now)]
  }

  lemma {:induction false} CopiesAre(accounts: seq<Account>, id: string, now: real)
    ensures forall copy :: copy in CopiesOf(accounts, id, now) <==>
              exists i :: 0 <= i < |accounts| && accounts[i].id == id
                && copy == TokenMerge.Save(if accounts[i].Corrupt? then map[] else accounts[i].entry, now)
    decreases |accounts|
  {
    if accounts != [] {
      var n := |accounts| - 1;
      CopiesAre(accounts[..n], id, now);
      assert accounts == accounts[..n] + [accounts[n]];
      forall i | 0 <= i < n ensures accounts[..n][i] == accounts[i] {}
    }
  }

  /** The id's state once the copies are saved over what the state had of it. */
  function AllSavedOver(state: State, id: string, copies: seq<TokenMerge.Save>): Option<Entry> {
    if copies == [] then (if id in state then Some(state[id]) else None)
    else if id in state then Some(SavedAll(state[id], copies))
    else Some(SavedAll(copies[0].entry, copies[1..]))
  }

  lemma {:induction false} StateMergedIsSaves(state: State, config: Config, storage: seq<Account>, scope: Scope,
                                              now: real, id: string)
    ensures var merged := StateMerged(state, config, storage, scope, now);
            var copies := if InScope(scope, id) && OnRoster(config, id) then CopiesOf(storage, id, now) else [];
            (if id in merged then Some(merged[id]) else None) == AllSavedOver(state, id, copies)
    decreases |storage|
  {
    hide Merged;
    hide OnRoster;
    hide InScope;
    if storage != [] {
      var n := |storage| - 1;
      StateMergedIsSaves(state, config, storage[..n], scope, now, id);
      hide AllSavedOver;
      if storage[n].id == id {
        var last := TokenMerge.Save(AccountRuntimeState(storage[n]), now);
        assert CopiesOf(storage, id, now) == CopiesOf(storage[..n], id, now) + [last];
        OneMoreCopy(state, id, CopiesOf(storage[..n], id, now), last);
      }
    }
  }

  lemma OneMoreCopy(state: State, id: string, front: seq<TokenMerge.Save>, last: TokenMerge.Save)
    ensures var before := AllSavedOver(state, id, front);
            AllSavedOver(state, id, front + [last])
            == Some(if before.Some? then Merged(before.value, last.entry, last.now) else last.entry)
  {
    hide Merged;
    hide SavedAll;
    var copies := front + [last];
    if id in state {
      OneMoreSave(state[id], front, last);
      NoSave(state[id]);
    } else if front != [] {
      OneMoreSave(front[0].entry, front[1..], last);
      assert copies[1..] == front[1..] + [last];
    } else {
      NoSave(last.entry);
      assert copies[1..] == [];
    }
  }

  lemma NoSave(existing: Entry)
    ensures SavedAll(existing, []) == existing
  {
  }

  lemma OneMoreSave(existing: Entry, front: seq<TokenMerge.Save>, last: TokenMerge.Save)
    ensures SavedAll(existing, front + [last]) == Merged(SavedAll(existing, front), last.entry, last.now)
  {
    assert (front + [last])[..|front|] == front;
  }

  /**
   What a save of state leaves of an id: nothing if no roster row has it, or if it is asked for and the caller has
   no such account; as it was if it is not asked for or no account is given; and otherwise the caller's copies
   saved one after the other over what was stored.
   */
  lemma SavedStateRow(files: Files, storage: seq<Account>, scope: Scope, now: real, id: string)
    ensures var saved, copies := SavedState(files, storage, scope, now), CopiesOf(storage, id, now);
            if scope == NoAccounts then saved == files.state
            else if Unlisted(files.config, id) || (scope.Only? && id in scope.ids && copies == []) then id !in saved
            else if (scope.Only? && id !in scope.ids) || copies == []
            then (id in saved <==> id in files.state) && (id in files.state ==> saved[id] == files.state[id])
            else id in saved
                 && saved[id] == if id in files.state then SavedAll(files.state[id], copies)
                                 else SavedAll(copies[0].entry, copies[1..])
  {
    hide StateMerged;
    hide OnRoster;
    UnlistedExactlyWhen(files.config, id);
    StateMergedIsSaves(files.state, files.config, storage, scope, now, id);
    CopiesAre(storage, id, now);
    assert id in Ids(storage) <==> exists i :: 0 <= i < |storage| && storage[i].id == id;
    assert id in Ids(storage) <==> CopiesOf(storage, id, now) != [] by {
      if id in Ids(storage) {
        var i :| 0 <= i < |storage| && storage[i].id == id;
        var copy := TokenMerge.Save(if storage[i].Corrupt? then map[] else storage[i].entry, now);
        assert copy in CopiesOf(storage, id, now);
      }
      if CopiesOf(storage, id, now) != [] { assert CopiesOf(storage, id, now)[0] in CopiesOf(storage, id, now); }
    }
  }

  /**
   A save of state leaves an id that is asked for and given with the token of one of the copies, stored or given,
   and none of these is newer.
   */
  lemma {:induction false} SavedStateKeepsTheNewest(files: Files, storage: seq<Account>, scope: Scope, now: real,
                                                    id: string)
    requires scope != NoAccounts && !Unlisted(files.config, id) && (scope.Only? ==> id in scope.ids)
    requires exists account :: account in storage && account.id == id
    ensures var saved := SavedState(files, storage, scope, now);
            && id in saved
            && (TokenStored(files.state, saved[id], id) || TokenGiven(storage, saved[id], id))
            && (id in files.state ==> !Newer(files.state[id], saved[id], now))
            && forall account :: account in storage && account.id == id ==>
                 !Newer(if account.Corrupt? then map[] else account.entry, saved[id], now)
  {
    hide SavedState;
    hide SavedAll;
    hide Newer;
    hide SameCredential;
    hide HasTokenOf;
    var saved, copies := SavedState(files, storage, scope, now), CopiesOf(storage, id, now);
    CopiesAre(storage, id, now);
    SavedStateRow(files, storage, scope, now, id);
    forall account | account in storage && account.id == id
      ensures TokenMerge.Save(if account.Corrupt? then map[] else account.entry, now) in copies
    {
      var i :| 0 <= i < |storage| && storage[i] == account;
    }
    var first := if id in files.state then files.state[id] else copies[0].entry;
    var rest := if id in files.state then copies else copies[1..];
    assert saved[id] == SavedAll(first, rest);
    assert forall copy :: copy in rest ==> copy in copies;
    SavesAtOnce(first, rest, now);
    forall copy | copy in copies ensures !Newer(copy.entry, saved[id], now) {
      assert id in files.state || copy == copies[0] || copy in copies[1..];
    }
    SameTokenFields(saved[id], first);
    if !SameCredential(saved[id], first) || id !in files.state {
      var k: int :| -1 <= k < |rest| && SameCredential(saved[id], if k < 0 then first else rest[k].entry)
                    && (k < 0 ==> id !in files.state);
      var copy := if k < 0 then copies[0] else rest[k];
      SameTokenFields(saved[id], copy.entry);
      assert copy in copies;
    }
  }

  ghost predicate TokenStored(state: State, entry: Entry, id: string) {
    id in state && HasTokenOf(entry, state[id])
  }

  ghost predicate TokenGiven(storage: seq<Account>, entry: Entry, id: string) {
    exists account :: account in storage && account.id == id
      && HasTokenOf(entry, if account.Corrupt? then map[] else account.entry)
  }

  lemma SameTokenFields(a: Entry, b: Entry)
    ensures SameCredential(a, b) ==> HasTokenOf(a, b)
  {
    if SameCredential(a, b) {
      assert SameField(a, b, Access) && SameField(a, b, Refresh) && SameField(a, b, Expires)
          && SameField(a, b, LastRefreshedAt) && SameField(a, b, LastRefreshError);
    }
  }

  /** Copies all saved at one moment. */
  lemma SavesAtOnce(first: Entry, copies: seq<TokenMerge.Save>, now: real)
    requires forall copy :: copy in copies ==> copy.now == now
    ensures var saved := SavedAll(first, copies);
            && (SameCredential(saved, first)
                || exists k :: 0 <= k < |copies| && SameCredential(saved, copies[k].entry))
            && !Newer(first, saved, now) && forall copy :: copy in copies ==> !Newer(copy.entry, saved, now)
  {
    hide Newer;
    hide SavedAll;
    hide SameCredential;
    hide TrustedRefreshStamp;
    SavesKeepTheNewest(first, copies, now);
  }

  lemma {:induction false} RunKeepsStateOnRoster(trace: seq<Files>, ops: seq<Op>, i: nat)
    requires Run(trace, ops) && StateOnRoster(trace[0]) && i < |trace|
    requires forall k :: 0 <= k < |ops| ==> WritesProperIds(trace[k], ops[k])
    ensures StateOnRoster(trace[i])
    decreases i
  {
    hide Applied;
    hide WritesProperIds;
    hide StateOnRoster;
    if i > 0 {
      RunKeepsStateOnRoster(trace, ops, i - 1);
      StepKeepsStateOnRoster(trace[i - 1], ops[i - 1]);
    }
  }
}
