/**
 The account store's two files: the config file with the roster of accounts, and the state file with
 their credentials. Loading puts the two together; entries that do not load stay in the roster.
 */
module AccountRoster {
  import opened Options
  import opened Text
  import opened Json
  import opened Normalization
  import opened TokenMerge

  // ---------------------------------------------------------------------
  // Accounts and the files
  // ---------------------------------------------------------------------

  /**
   An account in memory: its settings, which go to the config file, and its runtime entry, which goes
   to the state file. A corrupt one has no runtime entry but when it was last used.
   */
  datatype Account =
    | OAuth(id: string, entry: Entry, settings: Fields)
    | Corrupt(id: string, entry: Entry, settings: Fields)
    | Api(id: string, entry: Entry, settings: Fields)

  /** The config file: not there, without an account list, or with one. */
  datatype Config = Absent | NoRoster(isStore: bool) | Roster(accounts: seq<Json>, isStore: bool)

  type State = map<string, Entry>

  /** What loading asks of its surroundings: ids to make up, `Number`, and which base URLs are acceptable. */
  datatype Context = Context(uuids: seq<string>, number: Coercion, acceptable: string -> bool)

  function Ids(accounts: seq<Account>): set<string> {
    set a | a in accounts :: a.id
  }

  // ---------------------------------------------------------------------
  // Loading
  // ---------------------------------------------------------------------

  const OAUTH := Str("oauth")
  const API := Str("api")
  const BEARER := "authorization-bearer"
  const X_API_KEY := "x-api-key"

  /** What an account keeps of a setting any account has. */
  function BaseField(key: Key, v: Json): Option<Json> {
    if key.Label? || key.AccountId? then OnlyStr(v)
    else if key.Enabled? then OnlyBool(v)
    else if key.AddedAt? then OnlyNum(v)
    else None
  }

  function BaseSettings(fields: Fields): Fields {
    map key | key in fields && BaseField(key, fields[key]).Some? :: BaseField(key, fields[key]).value
  }

  function ApiSettings(fields: Fields): Fields {
    BaseSettings(fields)[BaseURL := Str(Trimmed(fields, BaseURL))]
      [AuthHeader := Str(if Get(fields, AuthHeader) == Some(Str(X_API_KEY)) then X_API_KEY else BEARER)]
  }

  /** What an account with tokens keeps of a runtime field. */
  function OAuthField(key: Key, v: Json, number: Coercion): Option<Json> {
    if key.Access? || key.Refresh? then OnlyStr(v)
    else if key.Expires? || key.LastRefreshedAt? || key.LastUsed? then OnlyNum(v)
    else if key.LastRefreshError? || key.LastQuotaRefreshError? then Normal(ErrorShape, v, number)
    else if key.Quota? then Normal(QuotaShape, v, number)
    else None
  }

  function OAuthEntry(fields: Fields, number: Coercion): Entry {
    map key | key in fields && OAuthField(key, fields[key], number).Some? :: OAuthField(key, fields[key], number).value
  }

  /** What an account with an API key keeps of a runtime field. */
  function ApiField(key: Key, v: Json): Option<Json> {
    if key.LastUsed? then OnlyNum(v)
    else if key.ApiKey? && v.Str? && Trim(v.s) != "" then Some(Str(Trim(v.s)))
    else None
  }

  function ApiEntry(fields: Fields): Entry {
    map key | key in fields && ApiField(key, fields[key]).Some? :: ApiField(key, fields[key]).value
  }

  function CorruptEntry(fields: Fields): Entry {
    map key | key in fields && key.LastUsed? && fields[key].Num? :: fields[key]
  }

  function Trimmed(fields: Fields, key: Key): string {
    if GetStr(fields, key).Some? then Trim(GetStr(fields, key).value) else ""
  }

  predicate HasRefresh(fields: Fields) {
    Trimmed(fields, Refresh) != ""
  }

  /** The account a row stands for, if it loads; `uuid` is the id made up for a row that has none. */
  function NormalizeAccount(row: Json, uuid: string, context: Context): Option<Account> {
    if !row.Obj? then None
    else
      var fields := row.fields;
      var id := if RosterId(row).Some? then RosterId(row).value else uuid;
      if Get(fields, Type) == Some(API) then
        if Trimmed(fields, BaseURL) != "" && context.acceptable(Trimmed(fields, BaseURL))
        then Some(Api(id, ApiEntry(fields), ApiSettings(fields))) else None
      else if Get(fields, Type) != Some(OAUTH) then None
      else if Get(fields, CorruptFlag) == Some(Bool(true)) || (!HasRefresh(fields) && Refresh in fields) then
        if RosterId(row).Some? then Some(Corrupt(id, CorruptEntry(fields), BaseSettings(fields))) else None
      else if HasRefresh(fields) then Some(OAuth(id, OAuthEntry(fields, context.number), BaseSettings(fields)))
      else None
  }

  /** The row with the runtime fields the state file has under its id laid over its own. */
  function MergedRow(row: Json, state: State): Json {
    if row.Obj? && GetStr(row.fields, Id).Some? && GetStr(row.fields, Id).value in state
    then Obj(row.fields + state[GetStr(row.fields, Id).value]) else row
  }

  function LoadRows(rows: seq<Json>, state: State, context: Context): seq<Account>
    requires |context.uuids| >= |rows|
  {
    if rows == [] then []
    else
      var n := |rows| - 1;
      var front := LoadRows(rows[..n], state, context);
      var account := NormalizeAccount(MergedRow(rows[n], state), context.uuids[n], context);
      if account.Some? then front + [account.value] else front
  }

  // ---------------------------------------------------------------------
  // Writing
  // ---------------------------------------------------------------------

  function AccountConfig(account: Account): Json {
    var settings := account.settings[Id := Str(account.id)];
    match account
    case OAuth(_, _, _) => Obj(settings[Type := OAUTH])
    case Corrupt(_, _, _) => Obj(settings[Type := OAUTH][CorruptFlag := Bool(true)])
    case Api(_, _, _) => Obj(settings[Type := API])
  }

  function AccountRuntimeState(account: Account): Entry {
    if account.Corrupt? then map[] else account.entry
  }

  function ConfigRows(accounts: seq<Account>): seq<Json> {
    seq(|accounts|, i requires 0 <= i < |accounts| => AccountConfig(accounts[i]))
  }

  /** The state of each account, the last one of an id. */
  function StateRows(accounts: seq<Account>): State {
    if accounts == [] then map[]
    else
      var n := |accounts| - 1;
      StateRows(accounts[..n])[accounts[n].id := AccountRuntimeState(accounts[n])]
  }

  // ---------------------------------------------------------------------
  // The roster of a config file
  // ---------------------------------------------------------------------

  /** A row's id without space around it, which may be blank. */
  function RowId(row: Json): Option<string> {
    if row.Obj? && GetStr(row.fields, Id).Some? then Some(Trim(GetStr(row.fields, Id).value)) else None
  }

  /** The id of a row that counts as a member of the roster. */
  function RosterId(row: Json): Option<string> {
    if RowId(row) == Some("") then None else RowId(row)
  }

  function AddId(ids: seq<string>, id: Option<string>): seq<string> {
    if id.Some? && id.value !in ids then ids + [id.value] else ids
  }

  /** The ids of the roster in the order they first appear. */
  function RosterIds(rows: seq<Json>): seq<string> {
    if rows == [] then [] else AddId(RosterIds(rows[..|rows| - 1]), RosterId(rows[|rows| - 1]))
  }

  predicate Distinct(ids: seq<string>) {
    forall i, j :: 0 <= i < j < |ids| ==> ids[i] != ids[j]
  }

  lemma {:induction false} RosterIdsAre(rows: seq<Json>)
    ensures Distinct(RosterIds(rows))
    ensures forall id :: id in RosterIds(rows) <==> exists i :: 0 <= i < |rows| && RosterId(rows[i]) == Some(id)
    decreases |rows|
  {
    hide RosterId;
    if rows != [] {
      var n := |rows| - 1;
      RosterIdsAre(rows[..n]);
      forall id ensures id in RosterIds(rows) <==> exists i :: 0 <= i < |rows| && RosterId(rows[i]) == Some(id) {
        if RosterId(rows[n]) != Some(id) && exists i :: 0 <= i < |rows| && RosterId(rows[i]) == Some(id) {
          var i :| 0 <= i < |rows| && RosterId(rows[i]) == Some(id);
          assert rows[..n][i] == rows[i];
        }
        if id in RosterIds(rows[..n]) {
          var i :| 0 <= i < n && RosterId(rows[..n][i]) == Some(id);
          assert rows[i] == rows[..n][i];
        }
      }
    }
  }

  lemma RosterIdIsProper(row: Json)
    ensures RosterId(row).Some? ==> Proper(RosterId(row).value)
  {
    if RowId(row).Some? { TrimTwice(GetStr(row.fields, Id).value); }
  }

  // ---------------------------------------------------------------------
  // Rows that do not load
  // ---------------------------------------------------------------------

  /** The first row of the id. */
  function FirstRow(rows: seq<Json>, id: string): Option<Json> {
    if rows == [] then None
    else if RosterId(rows[0]) == Some(id) then Some(rows[0])
    else FirstRow(rows[1..], id)
  }

  lemma {:induction false} FirstRowIs(rows: seq<Json>, id: string)
    ensures FirstRow(rows, id).Some? <==> exists i :: 0 <= i < |rows| && RosterId(rows[i]) == Some(id)
    ensures FirstRow(rows, id).Some? ==>
              FirstRow(rows, id).value in rows && RosterId(FirstRow(rows, id).value) == Some(id)
    decreases |rows|
  {
    if rows != [] {
      FirstRowIs(rows[1..], id);
      if exists i :: 0 <= i < |rows| && RosterId(rows[i]) == Some(id) {
        var i :| 0 <= i < |rows| && RosterId(rows[i]) == Some(id);
        if i > 0 { assert rows[1..][i - 1] == rows[i]; }
      }
      if exists i :: 0 <= i < |rows[1..]| && RosterId(rows[1..][i]) == Some(id) {
        var i :| 0 <= i < |rows[1..]| && RosterId(rows[1..][i]) == Some(id);
        assert rows[i + 1] == rows[1..][i];
      }
    }
  }

  /** One row for each listed id that is neither loaded nor to be dropped. */
  function Picked(rows: seq<Json>, ids: seq<string>, loaded: set<string>, allowDrop: set<string>): seq<Json> {
    if ids == [] then []
    else
      var n := |ids| - 1;
      var front := Picked(rows, ids[..n], loaded, allowDrop);
      var row := FirstRow(rows, ids[n]);
      if ids[n] !in loaded && ids[n] !in allowDrop && row.Some? then front + [row.value] else front
  }

  /** Those of the rows whose id is not written already. */
  function NotWritten(rows: seq<Json>, written: set<string>): seq<Json> {
    if rows == [] then []
    else
      var n := |rows| - 1;
      var front := NotWritten(rows[..n], written);
      if RowId(rows[n]).Some? && RowId(rows[n]).value !in written then front + [rows[n]] else front
  }

  function WrittenIds(rows: seq<Json>): set<string> {
    set id | id in RosterIds(rows)
  }

  /** The account list written: the accounts, then the rows that did not load and are not to be dropped. */
  function RowsToWrite(rows: seq<Json>, loaded: set<string>, allowDrop: set<string>, accounts: seq<Account>)
    : seq<Json>
  {
    ConfigRows(accounts) + Additions(rows, loaded, allowDrop, accounts)
  }

  function Additions(rows: seq<Json>, loaded: set<string>, allowDrop: set<string>, accounts: seq<Account>)
    : seq<Json>
  {
    NotWritten(Picked(rows, RosterIds(rows), loaded, allowDrop), WrittenIds(ConfigRows(accounts)))
  }

  ghost predicate DistinctRows(rows: seq<Json>) {
    forall i, j :: 0 <= i < j < |rows| ==> RosterId(rows[i]) != RosterId(rows[j])
  }

  predicate Keeps(rows: seq<Json>, loaded: set<string>, allowDrop: set<string>, id: string) {
    id !in loaded && id !in allowDrop && FirstRow(rows, id).Some?
  }

  lemma {:induction false} PickedAre(rows: seq<Json>, ids: seq<string>, loaded: set<string>, allowDrop: set<string>)
    requires Distinct(ids)
    ensures var picked := Picked(rows, ids, loaded, allowDrop);
            && DistinctRows(picked)
            && (forall row :: row in picked ==>
                  && RosterId(row).Some? && RosterId(row).value in ids
                  && Keeps(rows, loaded, allowDrop, RosterId(row).value)
                  && row == FirstRow(rows, RosterId(row).value).value)
            && (forall id :: id in ids && Keeps(rows, loaded, allowDrop, id) ==> FirstRow(rows, id).value in picked)
    decreases |ids|
  {
    hide RosterId;
    hide FirstRow;
    if ids != [] {
      var n := |ids| - 1;
      var front := Picked(rows, ids[..n], loaded, allowDrop);
      PickedAre(rows, ids[..n], loaded, allowDrop);
      FirstRowIs(rows, ids[n]);
      assert Picked(rows, ids, loaded, allowDrop)
          == if Keeps(rows, loaded, allowDrop, ids[n]) then front + [FirstRow(rows, ids[n]).value] else front;
      hide Picked;
      assert ids == ids[..n] + [ids[n]];
      assert ids[n] !in ids[..n];
    }
  }

  lemma {:induction false} NotWrittenAre(rows: seq<Json>, written: set<string>)
    ensures forall row :: row in NotWritten(rows, written) <==>
              row in rows && RowId(row).Some? && RowId(row).value !in written
    ensures DistinctRows(rows) ==> DistinctRows(NotWritten(rows, written))
    decreases |rows|
  {
    hide RowId;
    hide RosterId;
    if rows != [] {
      var n := |rows| - 1;
      NotWrittenAre(rows[..n], written);
      assert rows == rows[..n] + [rows[n]];
      if DistinctRows(rows) {
        forall row | row in NotWritten(rows[..n], written) ensures RosterId(row) != RosterId(rows[n]) {
          var i :| 0 <= i < n && rows[..n][i] == row;
          assert rows[i] == row;
        }
      }
    }
  }

  lemma RosterIdIsRowId(row: Json)
    requires RosterId(row).Some?
    ensures RowId(row) == RosterId(row)
  {
  }

  /**
   The rows added to a write are rows of the file, unchanged, the first of their id, pairwise distinct
   and none with an id written otherwise; every row that did not load is among them, unless its id is
   to be dropped or written.
   */
  lemma AdditionsArePreserved(rows: seq<Json>, loaded: set<string>, allowDrop: set<string>, accounts: seq<Account>)
    ensures var additions := Additions(rows, loaded, allowDrop, accounts);
            var written := WrittenIds(ConfigRows(accounts));
            && DistinctRows(additions)
            && (forall row :: row in additions ==>
                  && row in rows && RosterId(row).Some? && Some(row) == FirstRow(rows, RosterId(row).value)
                  && RosterId(row).value !in written + loaded + allowDrop)
            && (forall id :: id in RosterIds(rows) && id !in written + loaded + allowDrop ==>
                  exists row :: row in additions && RosterId(row) == Some(id))
  {
    var written := WrittenIds(ConfigRows(accounts));
    var picked := Picked(rows, RosterIds(rows), loaded, allowDrop);
    var additions := Additions(rows, loaded, allowDrop, accounts);
    RosterIdsAre(rows);
    PickedAre(rows, RosterIds(rows), loaded, allowDrop);
    NotWrittenAre(picked, written);
    forall row | row in additions
      ensures row in rows && Some(row) == FirstRow(rows, RosterId(row).value) && RosterId(row).value !in written
    {
      RosterIdIsRowId(row);
      FirstRowIs(rows, RosterId(row).value);
    }
    forall id | id in RosterIds(rows) && id !in written + loaded + allowDrop
      ensures exists row :: row in additions && RosterId(row) == Some(id)
    {
      FirstRowIs(rows, id);
      var row := FirstRow(rows, id).value;
      RosterIdIsRowId(row);
      assert Keeps(rows, loaded, allowDrop, id) && row in additions;
    }
  }

  lemma RosterOfJoined(a: seq<Json>, b: seq<Json>, id: string)
    ensures id in RosterIds(a + b) <==> id in RosterIds(a) || id in RosterIds(b)
  {
    RosterIdsAre(a);
    RosterIdsAre(b);
    RosterIdsAre(a + b);
    if id in RosterIds(a) {
      var i :| 0 <= i < |a| && RosterId(a[i]) == Some(id);
      assert (a + b)[i] == a[i];
    }
    if id in RosterIds(b) {
      var i :| 0 <= i < |b| && RosterId(b[i]) == Some(id);
      assert (a + b)[|a| + i] == b[i];
    }
  }

  /** An id leaves the roster exactly when it is not written and it had loaded or is to be dropped. */
  lemma LeavesExactlyWhen(rows: seq<Json>, loaded: set<string>, allowDrop: set<string>, accounts: seq<Account>,
                          id: string)
    requires id in RosterIds(rows)
    ensures id !in RosterIds(RowsToWrite(rows, loaded, allowDrop, accounts)) <==>
            id !in WrittenIds(ConfigRows(accounts)) && id in loaded + allowDrop
  {
    var additions := Additions(rows, loaded, allowDrop, accounts);
    AdditionsArePreserved(rows, loaded, allowDrop, accounts);
    RosterOfJoined(ConfigRows(accounts), additions, id);
    RosterIdsAre(additions);
    if id in RosterIds(additions) {
      var i :| 0 <= i < |additions| && RosterId(additions[i]) == Some(id);
      assert additions[i] in additions;
    }
    if id !in WrittenIds(ConfigRows(accounts)) + loaded + allowDrop {
      var row :| row in additions && RosterId(row) == Some(id);
      var i :| 0 <= i < |additions| && additions[i] == row;
      assert RosterId(additions[i]) == Some(id);
    }
  }

  /** Nothing enters the roster but what is written. */
  lemma EntersOnlyWhenWritten(rows: seq<Json>, loaded: set<string>, allowDrop: set<string>, accounts: seq<Account>,
                              id: string)
    requires id in RosterIds(RowsToWrite(rows, loaded, allowDrop, accounts))
    ensures id in RosterIds(rows) || id in WrittenIds(ConfigRows(accounts))
  {
    var additions := Additions(rows, loaded, allowDrop, accounts);
    AdditionsArePreserved(rows, loaded, allowDrop, accounts);
    RosterOfJoined(ConfigRows(accounts), additions, id);
    RosterIdsAre(additions);
    RosterIdsAre(rows);
    if id in RosterIds(additions) {
      var i :| 0 <= i < |additions| && RosterId(additions[i]) == Some(id);
      assert additions[i] in additions;
      var j :| 0 <= j < |rows| && rows[j] == additions[i];
      assert RosterId(rows[j]) == Some(id);
    }
  }

  /** The id an account's row has on the roster. */
  function ConfigId(account: Account): Option<string> {
    if Trim(account.id) == "" then None else Some(Trim(account.id))
  }

  lemma ConfigRosterId(account: Account)
    ensures RosterId(AccountConfig(account)) == ConfigId(account)
  {
  }

  /** The ids an account list brings into the roster are its proper ids. */
  lemma WrittenAre(accounts: seq<Account>)
    ensures forall id :: Proper(id) && id in Ids(accounts) ==> id in WrittenIds(ConfigRows(accounts))
    ensures (forall id :: id in Ids(accounts) ==> Proper(id)) ==> WrittenIds(ConfigRows(accounts)) == Ids(accounts)
  {
    hide AccountConfig;
    hide RosterId;
    var rows := ConfigRows(accounts);
    RosterIdsAre(rows);
    forall i | 0 <= i < |accounts| ensures RosterId(rows[i]) == ConfigId(accounts[i]) { ConfigRosterId(accounts[i]); }
    forall id | Proper(id) && id in Ids(accounts) ensures id in WrittenIds(rows) {
      var i :| 0 <= i < |accounts| && accounts[i].id == id;
      assert RosterId(rows[i]) == Some(id);
    }
    if forall id :: id in Ids(accounts) ==> Proper(id) {
      forall id | id in WrittenIds(rows) ensures id in Ids(accounts) {
        var i :| 0 <= i < |rows| && RosterId(rows[i]) == Some(id);
        assert accounts[i].id in Ids(accounts);
      }
    }
  }
}
