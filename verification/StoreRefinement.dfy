/**
 The writers of the account store, seen on the accounts that hold refresh tokens, are the saves and
 edits of the refresh protocol. Rows that do not load and accounts with API keys may stand beside them.
 */
module StoreRefinement {
  import opened Json
  import opened TokenMerge
  import opened AccountRoster
  import opened AccountStore
  import opened RosterRuns
  import Protocol = RefreshProtocol

  /** The accounts of a list that hold refresh tokens, by id. */
  function TokenRows(accounts: seq<Account>): Protocol.Rows {
    map id | id in Ids(accounts) && HoldsToken(accounts, id) :: AccountRuntimeState(Find(accounts, id).value)
  }

  predicate HoldsToken(accounts: seq<Account>, id: string) {
    Find(accounts, id).Some? && Find(accounts, id).value.OAuth?
  }

  /** The accounts that load, one of each id. */
  function LoadedOnce(files: Files, context: Context): seq<Account>
    requires |context.uuids| >= |RowsOf(files.config)|
  {
    SetAll([], Loaded(files, context))
  }

  /** The id stands for an account without tokens. */
  predicate OtherKind(accounts: seq<Account>, id: string) {
    id in Ids(accounts) && !HoldsToken(accounts, id)
  }

  /** The ids of accounts with tokens that the caller has another kind of account for. */
  function TakenOver(loaded: seq<Account>, storage: seq<Account>): set<string> {
    set id | id in Ids(loaded) && HoldsToken(loaded, id) && OtherKind(storage, id)
  }

  lemma FindsIds(accounts: seq<Account>, id: string)
    ensures Find(accounts, id).Some? <==> id in Ids(accounts)
    ensures Find(accounts, id).Some? ==> Find(accounts, id).value in accounts && Find(accounts, id).value.id == id
  {
  }

  // ---------------------------------------------------------------------
  // Saving runtime state
  // ---------------------------------------------------------------------

  /** What the state file holds of accounts on the roster. */
  function RosterState(files: Files): Protocol.Rows {
    map id | id in files.state && OnRoster(files.config, id) :: files.state[id]
  }

  /** The snapshot a list of accounts is saved from. */
  function Snapshot(accounts: seq<Account>): Protocol.Rows {
    map id | id in Ids(accounts) && Find(accounts, id).Some? :: AccountRuntimeState(Find(accounts, id).value)
  }

  /**
   For every account on the roster that has state, a save of runtime state does what the protocol's
   save does, whatever the rest of the store; an account without state gets the snapshot's.
   */
  lemma StateSaveRefines(files: Files, storage: seq<Account>, scope: Scope, now: real, id: string)
    requires DistinctIds(storage) && !scope.NoAccounts? && (scope.Only? ==> scope.ids <= Ids(storage))
    ensures var saved := SavedState(files, storage, scope, now);
            var rows := if scope.Only? then scope.ids else Ids(storage);
            var spec := Protocol.StateSaved(RosterState(files), Snapshot(storage), rows, now);
            && (id in spec ==> id in saved && saved[id] == spec[id])
            && (id in saved && id !in spec ==>
                  id in rows && id in Snapshot(storage) && saved[id] == Snapshot(storage)[id])
  {
    hide Merged;
    hide AccountRuntimeState;
    MergedStateRows(files.state, files.config, storage, scope, now, id);
    FindsIds(storage, id);
    hide Find;
    hide StateMerged;
    hide OnRoster;
  }

  // ---------------------------------------------------------------------
  // Saving accounts
  // ---------------------------------------------------------------------

  lemma UniteKeepsDistinct(accounts: seq<Account>, account: Account, now: real)
    requires DistinctIds(accounts)
    ensures DistinctIds(Unite(accounts, account, now)) && DistinctIds(SetAccount(accounts, account))
  {
  }

  lemma {:induction false} UniteAllDistinct(accounts: seq<Account>, incoming: seq<Account>, now: real)
    requires DistinctIds(accounts)
    ensures DistinctIds(UniteAll(accounts, incoming, now))
    decreases |incoming|
  {
    if incoming != [] {
      var front, last := incoming[..|incoming| - 1], incoming[|incoming| - 1];
      UniteAllDistinct(accounts, front, now);
      UniteKeepsDistinct(UniteAll(accounts, front, now), last, now);
    }
  }

  lemma {:induction false} SetAllDistinct(accounts: seq<Account>, more: seq<Account>)
    requires DistinctIds(accounts)
    ensures DistinctIds(SetAll(accounts, more))
    decreases |more|
  {
    if more != [] {
      var front, last := more[..|more| - 1], more[|more| - 1];
      SetAllDistinct(accounts, front);
      UniteKeepsDistinct(SetAll(accounts, front), last, 0.0);
    }
  }

  lemma StateOfFound(accounts: seq<Account>, id: string)
    requires DistinctIds(accounts) && id in Ids(accounts)
    ensures id in StateRows(accounts) && Find(accounts, id).Some?
    ensures StateRows(accounts)[id] == AccountRuntimeState(Find(accounts, id).value)
  {
    FindsIds(accounts, id);
    StateRow(accounts, IndexOf(accounts, id));
  }

  /**
   A whole save does to the accounts with tokens what the protocol's whole save does, and the state
   file holds exactly what is saved of them; but where the caller has another kind of account for the id
   of one of them, that account takes its place, and its tokens are gone.
   */
  lemma AccountsSaveRefines(files: Files, context: Context, storage: seq<Account>, now: real)
    requires files.config.Roster? && |context.uuids| >= |RowsOf(files.config)|
    requires DistinctIds(storage)
    ensures var loaded, merged := LoadedOnce(files, context), MergedForSave(files, storage, context, now);
            var spec := Protocol.AccountsSaved(TokenRows(loaded), TokenRows(storage), now);
            var state := SavedAccounts(files, storage, context, now).state;
            && TokenRows(merged) == spec - TakenOver(loaded, storage)
            && (TokenRows(merged) == spec <==> TakenOver(loaded, storage) == {})
            && (forall id :: id in TokenRows(merged) ==> id in state && state[id] == TokenRows(merged)[id])
            && (forall id :: id in TakenOver(loaded, storage) ==>
                  id in state && id in Snapshot(storage) && state[id] == Snapshot(storage)[id])
  {
    SetAllDistinct([], Loaded(files, context));
    UnitedTokens(LoadedOnce(files, context), storage, now);
    hide UniteAll;
    hide Loaded;
    hide TokenRows;
    hide TakenOver;
    hide Snapshot;
    hide Protocol.AccountsSaved;
  }

  /** The same of the accounts the save unites, and the state written for them. */
  lemma UnitedTokens(accounts: seq<Account>, storage: seq<Account>, now: real)
    requires DistinctIds(accounts) && DistinctIds(storage)
    ensures var merged := UniteAll(accounts, storage, now);
            var spec := Protocol.AccountsSaved(TokenRows(accounts), TokenRows(storage), now);
            && TokenRows(merged) == spec - TakenOver(accounts, storage)
            && (TokenRows(merged) == spec <==> TakenOver(accounts, storage) == {})
            && (forall id :: id in TokenRows(merged) ==>
                  id in StateRows(merged) && StateRows(merged)[id] == TokenRows(merged)[id])
            && (forall id :: id in TakenOver(accounts, storage) ==>
                  id in StateRows(merged) && id in Snapshot(storage) && StateRows(merged)[id] == Snapshot(storage)[id])
  {
    var merged := UniteAll(accounts, storage, now);
    var spec := Protocol.AccountsSaved(TokenRows(accounts), TokenRows(storage), now);
    var taken := TakenOver(accounts, storage);
    TakenAreSaved(accounts, storage, now);
    hide UniteAll;
    hide Snapshot;
    hide SameRow;
    hide StateRows;
    hide TokenRows;
    hide Protocol.AccountsSaved;
    hide TakenOver;
    forall id ensures SameRow(TokenRows(merged), spec - taken, id) {
      UnitedRow(accounts, storage, now, id);
    }
    SameRows(TokenRows(merged), spec - taken);
    StateOfUnited(accounts, storage, now);
  }

  lemma StateOfUnited(accounts: seq<Account>, storage: seq<Account>, now: real)
    requires DistinctIds(accounts) && DistinctIds(storage)
    ensures var merged := UniteAll(accounts, storage, now);
            && (forall id :: id in TokenRows(merged) ==>
                  id in StateRows(merged) && StateRows(merged)[id] == TokenRows(merged)[id])
            && (forall id :: id in TakenOver(accounts, storage) ==>
                  id in StateRows(merged) && id in Snapshot(storage) && StateRows(merged)[id] == Snapshot(storage)[id])
  {
    var merged := UniteAll(accounts, storage, now);
    UniteAllDistinct(accounts, storage, now);
    hide UniteAll;
    hide StateRows;
    hide TokenRows;
    hide TakenOver;
    forall id | id in TokenRows(merged)
      ensures id in StateRows(merged) && StateRows(merged)[id] == TokenRows(merged)[id]
    {
      TokenRowIs(merged, id);
      StateOfFound(merged, id);
    }
    forall id | id in TakenOver(accounts, storage)
      ensures id in StateRows(merged) && id in Snapshot(storage) && StateRows(merged)[id] == Snapshot(storage)[id]
    {
      TakenRow(accounts, storage, now, id);
      StateOfFound(merged, id);
    }
  }

  /** What the protocol saves has a row for every account that is taken over. */
  lemma TakenAreSaved(accounts: seq<Account>, storage: seq<Account>, now: real)
    ensures TakenOver(accounts, storage) <= Protocol.AccountsSaved(TokenRows(accounts), TokenRows(storage), now).Keys
  {
  }

  lemma TakenRow(accounts: seq<Account>, storage: seq<Account>, now: real, id: string)
    requires DistinctIds(storage) && id in TakenOver(accounts, storage)
    ensures id in Ids(UniteAll(accounts, storage, now)) && id in Snapshot(storage)
    ensures Find(UniteAll(accounts, storage, now), id) == Find(storage, id)
  {
    hide UniteAll;
    UnitedRows(accounts, storage, now, id);
    FindsIds(accounts, id);
    FindsIds(storage, id);
    FindsIds(UniteAll(accounts, storage, now), id);
  }

  predicate SameRow(a: Protocol.Rows, b: Protocol.Rows, id: string) {
    (id in a <==> id in b) && (id in a ==> a[id] == b[id])
  }

  lemma SameRows(a: Protocol.Rows, b: Protocol.Rows)
    requires forall id :: SameRow(a, b, id)
    ensures a == b
  {
    forall id ensures id in a <==> id in b { assert SameRow(a, b, id); }
    forall id | id in a ensures a[id] == b[id] { assert SameRow(a, b, id); }
  }

  lemma TokenRowIs(accounts: seq<Account>, id: string)
    ensures id in TokenRows(accounts) <==> HoldsToken(accounts, id)
    ensures id in TokenRows(accounts) ==>
              id in Ids(accounts) && TokenRows(accounts)[id] == AccountRuntimeState(Find(accounts, id).value)
  {
    FindsIds(accounts, id);
  }

  lemma UnitedRow(accounts: seq<Account>, storage: seq<Account>, now: real, id: string)
    requires DistinctIds(storage)
    ensures SameRow(TokenRows(UniteAll(accounts, storage, now)),
                    Protocol.AccountsSaved(TokenRows(accounts), TokenRows(storage), now)
                    - TakenOver(accounts, storage), id)
  {
    hide TokenRows;
    hide UniteAll;
    hide WithCredentialOf;
    hide NewerOf;
    UnitedRows(accounts, storage, now, id);
    TokenRowIs(accounts, id);
    TokenRowIs(storage, id);
    TokenRowIs(UniteAll(accounts, storage, now), id);
    FindsIds(accounts, id);
    FindsIds(storage, id);
    hide Find;
  }

  // ---------------------------------------------------------------------
  // Editing the roster
  // ---------------------------------------------------------------------

  /** An edit whose accounts with tokens are loaded ones, with the credential they had, is an edit of the protocol. */
  lemma MutateIsEdit(w: Protocol.World, files: Files, context: Context, next: seq<Account>, allowDrop: set<string>)
    requires |context.uuids| >= |RowsOf(files.config)| && w.disk == TokenRows(LoadedOnce(files, context))
    requires DistinctIds(next)
    requires forall id :: id in TokenRows(next) ==> id in w.disk && SameCredential(TokenRows(next)[id], w.disk[id])
    ensures Protocol.Step(w, Protocol.Action.Edit(TokenRows(next)), w.(disk := TokenRows(next)))
    ensures forall id :: id in TokenRows(next) ==>
              id in Mutated(files, next, allowDrop, context).state
              && Mutated(files, next, allowDrop, context).state[id] == TokenRows(next)[id]
  {
    hide LoadedOnce;
    forall id | id in TokenRows(next) ensures id in StateRows(next) && StateRows(next)[id] == TokenRows(next)[id] {
      StateOfFound(next, id);
    }
  }

  // ---------------------------------------------------------------------
  // The newest token
  // ---------------------------------------------------------------------

  /** The protocol's rows are accounts of the store: on the roster, with that state, and loaded with its credential. */
  ghost predicate Stored(w: Protocol.World, files: Files, context: Context)
    requires |context.uuids| >= |RowsOf(files.config)|
  {
    forall id :: id in w.disk ==>
      && id in RosterState(files) && RosterState(files)[id] == w.disk[id]
      && id in TokenRows(LoadedOnce(files, context))
      && SameCredential(TokenRows(LoadedOnce(files, context))[id], w.disk[id])
  }

  /** The caller's account of the id, if it has one, holds tokens that were issued for it, or none at all. */
  ghost predicate GivenIsKnown(w: Protocol.World, storage: seq<Account>, id: string) {
    id in Snapshot(storage) ==>
      if HoldsToken(storage, id) then Protocol.Known(w.issued, id, Snapshot(storage)[id])
      else Refresh !in Snapshot(storage)[id]
  }

  /** The row's stamp or, on equal stamps, its expiry is later than those of the caller's entry. */
  predicate StaysNewer(w: Protocol.World, storage: seq<Account>, id: string) {
    id in w.disk && id in Snapshot(storage) && Newer(w.disk[id], Snapshot(storage)[id], w.clock)
  }

  /**
   So neither a save of runtime state nor a whole save takes the newest token from an account on disk,
   whatever snapshot of known rows is saved, unless the snapshot has another kind of account for its id. Then a
   whole save always takes it, and a save of runtime state takes it exactly when the account is in its scope and
   the token on disk has no later stamp or expiry than an entry without a token.
   */
  lemma SavesKeepNewestToken(w: Protocol.World, files: Files, context: Context, storage: seq<Account>, scope: Scope,
                             id: string)
    requires Protocol.Inv(w) && |context.uuids| >= |RowsOf(files.config)| && Stored(w, files, context)
    requires files.config.Roster? && DistinctIds(storage) && GivenIsKnown(w, storage, id)
    requires !scope.NoAccounts? && (scope.Only? ==> scope.ids <= Ids(storage))
    requires id in w.disk && Protocol.Newest(w, id, w.disk[id])
    ensures var state := SavedState(files, storage, scope, w.clock);
            id in state && (Protocol.Newest(w, id, state[id])
                            <==> (OtherKind(storage, id) && InScope(scope, id) ==> StaysNewer(w, storage, id)))
    ensures var state := SavedAccounts(files, storage, context, w.clock).state;
            id in state && (Protocol.Newest(w, id, state[id]) <==> !OtherKind(storage, id))
  {
    StateSaveKeeps(w, files, context, storage, scope, id);
    AccountsSaveKeeps(w, files, context, storage, id);
  }

  lemma StateSaveKeeps(w: Protocol.World, files: Files, context: Context, storage: seq<Account>, scope: Scope,
                       id: string)
    requires Protocol.Inv(w) && |context.uuids| >= |RowsOf(files.config)| && Stored(w, files, context)
    requires DistinctIds(storage) && GivenIsKnown(w, storage, id)
    requires !scope.NoAccounts? && (scope.Only? ==> scope.ids <= Ids(storage))
    requires id in w.disk && Protocol.Newest(w, id, w.disk[id])
    ensures var state := SavedState(files, storage, scope, w.clock);
            id in state && (Protocol.Newest(w, id, state[id])
                            <==> (OtherKind(storage, id) && InScope(scope, id) ==> StaysNewer(w, storage, id)))
  {
    hide Protocol.Newest;
    hide Protocol.Known;
    hide Protocol.Chosen;
    hide Merged;
    hide Newer;
    hide SavedState;
    hide LoadedOnce;
    hide AccountRuntimeState;
    StateSaveRefines(files, storage, scope, w.clock, id);
    FindsIds(storage, id);
    hide Find;
    Protocol.RowIsKnown(w, id);
    if id in Snapshot(storage) {
      var incoming := Snapshot(storage)[id];
      if HoldsToken(storage, id) {
        Protocol.MergedIsChosen(w.disk[id], incoming, w.clock);
        Protocol.ChosenIsNewest(w, id, Merged(w.disk[id], incoming, w.clock), w.disk[id], incoming);
      } else {
        MergedWithNoToken(w, id, incoming);
      }
    }
  }

  /** A row merged with an entry without a token keeps its own exactly when it is the newer. */
  lemma MergedWithNoToken(w: Protocol.World, id: string, incoming: Entry)
    requires Protocol.Inv(w) && id in w.disk && Protocol.Newest(w, id, w.disk[id]) && Refresh !in incoming
    ensures Protocol.Newest(w, id, Merged(w.disk[id], incoming, w.clock)) <==> Newer(w.disk[id], incoming, w.clock)
  {
    var row := w.disk[id];
    var merged, source := Merged(row, incoming, w.clock), NewerOf(row, incoming, w.clock);
    hide Merged;
    hide Protocol.Inv;
    forall f | IsCredential(f) ensures SameField(merged, source, f) {
      MergedField(row, incoming, w.clock, f);
    }
    assert SameField(merged, source, Refresh) && SameField(row, incoming, Refresh) == false;
    Protocol.SameCredentialKnown(w, id, merged, source);
  }

  lemma AccountsSaveKeeps(w: Protocol.World, files: Files, context: Context, storage: seq<Account>, id: string)
    requires Protocol.Inv(w) && |context.uuids| >= |RowsOf(files.config)| && Stored(w, files, context)
    requires files.config.Roster? && DistinctIds(storage) && GivenIsKnown(w, storage, id)
    requires id in w.disk && Protocol.Newest(w, id, w.disk[id])
    ensures var state := SavedAccounts(files, storage, context, w.clock).state;
            id in state && (Protocol.Newest(w, id, state[id]) <==> !OtherKind(storage, id))
  {
    hide Protocol.Newest;
    hide Protocol.Chosen;
    hide SavedAccounts;
    hide MergedForSave;
    hide LoadedOnce;
    hide AccountRuntimeState;
    hide WithCredentialOf;
    hide NewerOf;
    hide TokenRows;
    var loaded := TokenRows(LoadedOnce(files, context));
    AccountsSaveRefines(files, context, storage, w.clock);
    TokenRowIs(LoadedOnce(files, context), id);
    TokenRowIs(storage, id);
    FindsIds(storage, id);
    hide Find;
    Protocol.SameCredentialKnown(w, id, loaded[id], w.disk[id]);
    Protocol.RowIsKnown(w, id);
    if OtherKind(storage, id) {
      NoTokenIsNotNewest(w, id, Snapshot(storage)[id]);
    } else if id in TokenRows(storage) {
      hide Protocol.Known;
      var incoming := TokenRows(storage)[id];
      Protocol.KeptIsChosen(loaded[id], incoming, w.clock);
      Protocol.ChosenIsNewest(w, id, WithCredentialOf(incoming, NewerOf(loaded[id], incoming, w.clock)), loaded[id],
                              incoming);
    }
  }

  lemma NoTokenIsNotNewest(w: Protocol.World, id: string, e: Entry)
    requires Refresh !in e
    ensures !Protocol.Newest(w, id, e)
  {
  }
}
