/**
 Splitting a loaded storage into the config file and the state file, and loading the two again.
 */
module StorageRoundTrip {
  import opened Options
  import opened Text
  import opened Json
  import opened Normalization
  import opened AccountRoster
  import opened RosterRuns

  /** The config file without and with its account list, and the state file with its main slot, if it has one. */
  datatype ConfigFile = ConfigFile(settings: Fields, accounts: seq<Json>)
  datatype StateFile = StateFile(main: Option<Fields>, accounts: State)

  /** A storage in memory; its version and its kind of main account are constant. */
  datatype Storage = Storage(settings: Fields, accounts: seq<Account>)

  // ---------------------------------------------------------------------
  // Loading
  // ---------------------------------------------------------------------

  function Put(fields: Fields, key: Key, v: Option<Json>): Fields {
    if v.Some? then fields[key := v.value] else fields - {key}
  }

  /** A value that is neither missing nor null. */
  function Present(fields: Fields, key: Key): Option<Json> {
    if key in fields && !fields[key].Null? then Some(fields[key]) else None
  }

  function MainSource(main: Option<Fields>, config: Fields): Fields {
    if main.Some? then main.value else config
  }

  predicate LeaseHeld(refresh: Fields) {
    MainRefreshLeaseId in refresh
  }

  /** The `refresh` record with what the main slot's refresh has on file; a lease is taken whole from one file. */
  function MergedRefresh(refresh: Fields, main: Option<Fields>): Fields {
    var source := MainSource(main, refresh);
    var held := LeaseHeld(refresh);
    var error := if Present(refresh, MainLastRefreshError).Some? then Present(refresh, MainLastRefreshError)
                 else Get(source, LastRefreshError);
    var id := if held then Get(refresh, MainRefreshLeaseId) else Get(source, RefreshLeaseId);
    var until := if held then Get(refresh, MainRefreshLeaseUntil) else Get(source, RefreshLeaseUntil);
    var hash := if held then Get(refresh, MainRefreshLeaseTokenHash) else Get(source, RefreshLeaseTokenHash);
    Put(Put(Put(Put(refresh, MainLastRefreshError, error), MainRefreshLeaseId, id), MainRefreshLeaseUntil, until),
        MainRefreshLeaseTokenHash, hash)
  }

  /** The `quota` record with the main slot's readings. */
  function MergedQuota(quota: Fields, main: Option<Fields>): Fields {
    var source := MainSource(main, quota);
    Put(Put(Put(Put(quota, MainQuota, Get(source, Quota)), MainQuotaCheckedAt, Get(source, QuotaCheckedAt)),
            MainQuotaToken, Get(source, QuotaToken)), MainLastQuotaApiError, Get(source, LastQuotaApiError))
  }

  function MergedSettings(settings: Fields, main: Option<Fields>): Fields {
    settings[Refresh := Obj(MergedRefresh(GetObj(settings, Refresh), main))]
            [Quota := Obj(MergedQuota(GetObj(settings, Quota), main))]
  }

  function NormalSettings(settings: Fields, number: Coercion): Fields {
    map key | key in settings && Setting(key, settings[key], number).Some? ::
      Setting(key, settings[key], number).value
  }

  function Load(config: ConfigFile, state: StateFile, context: Context): Storage
    requires |context.uuids| >= |config.accounts|
  {
    Storage(NormalSettings(MergedSettings(config.settings, state.main), context.number),
            LoadRows(config.accounts, state.accounts, context))
  }

  // ---------------------------------------------------------------------
  // Splitting
  // ---------------------------------------------------------------------

  /** The properties of the two records that go to the config file. */
  predicate InConfig(record: Key, key: Key) {
    if record.Refresh? then key.Enabled? || key.RefreshBeforeExpiryMinutes?
    else
      || key.Enabled? || key.CheckIntervalMinutes? || key.RefreshEveryNRequests? || key.MinimumRemaining?
      || key.FailClosedOnUnknownQuota?
  }

  /** Those that go to the state file. */
  predicate InState(record: Key, key: Key) {
    if record.Refresh? then
      || key.MainLastRefreshError? || key.MainRefreshLeaseId? || key.MainRefreshLeaseUntil?
      || key.MainRefreshLeaseTokenHash?
    else key.MainQuota? || key.MainQuotaCheckedAt? || key.MainQuotaToken? || key.MainLastQuotaApiError?
  }

  function ConfigPart(record: Key, fields: Fields): Fields {
    map key | key in fields && InConfig(record, key) :: fields[key]
  }

  function ConfigOf(storage: Storage): ConfigFile {
    ConfigFile(map key | key in storage.settings ::
                 if key.Refresh? || key.Quota? then Obj(ConfigPart(key, GetObj(storage.settings, key)))
                 else storage.settings[key],
               ConfigRows(storage.accounts))
  }

  /** What the main slot of the state file holds under a name. */
  function MainField(settings: Fields, key: Key): Option<Json> {
    var quota, refresh := GetObj(settings, Quota), GetObj(settings, Refresh);
    if key.Quota? then Get(quota, MainQuota)
    else if key.QuotaCheckedAt? then Get(quota, MainQuotaCheckedAt)
    else if key.QuotaToken? then Get(quota, MainQuotaToken)
    else if key.LastQuotaApiError? then Get(quota, MainLastQuotaApiError)
    else if key.LastRefreshError? then Get(refresh, MainLastRefreshError)
    else if key.RefreshLeaseId? then Get(refresh, MainRefreshLeaseId)
    else if key.RefreshLeaseUntil? then Get(refresh, MainRefreshLeaseUntil)
    else if key.RefreshLeaseTokenHash? then Get(refresh, MainRefreshLeaseTokenHash)
    else None
  }

  const MAIN_KEYS: set<Key> := {Quota, QuotaCheckedAt, QuotaToken, LastQuotaApiError, LastRefreshError, RefreshLeaseId,
                                RefreshLeaseUntil, RefreshLeaseTokenHash}

  function MainOf(settings: Fields): Fields {
    map key | key in MAIN_KEYS && MainField(settings, key).Some? :: MainField(settings, key).value
  }

  function StateOf(storage: Storage): StateFile {
    StateFile(Some(MainOf(storage.settings)), StateRows(storage.accounts))
  }

  // ---------------------------------------------------------------------
  // Accounts come back
  // ---------------------------------------------------------------------

  /** The account is as loading leaves it: every field of it is one that normalising keeps as it is. */
  ghost predicate NormalAccount(account: Account, context: Context) {
    && Proper(account.id)
    && match account
       case OAuth(_, entry, settings) =>
         && HasRefresh(entry) && OAuthEntry(entry, context.number) == entry && BaseSettings(settings) == settings
       case Corrupt(_, entry, settings) => CorruptEntry(entry) == entry && BaseSettings(settings) == settings
       case Api(_, entry, settings) =>
         && ApiEntry(entry) == entry && ApiSettings(settings) == settings
         && Trimmed(settings, BaseURL) != "" && context.acceptable(Trimmed(settings, BaseURL))
  }

  /** A row that keeps everything when written: a corrupt row has no place for when it was last used. */
  predicate Keepable(account: Account) {
    account.Corrupt? ==> LastUsed !in account.entry
  }

  /** The account reads its own entry back from a state entry, be it written for it or for another of its id. */
  predicate ReadsBack(account: Account, entry: Fields) {
    match account
    case OAuth(_, own, _) => entry == own
    case Corrupt(_, own, _) => CorruptEntry(entry) == own
    case Api(_, own, _) => ApiEntry(entry) == own
  }

  /** The last account of the id, whose state is the one written. */
  function LastOf(accounts: seq<Account>, id: string): (account: Account)
    requires exists a :: a in accounts && a.id == id
    ensures account in accounts && account.id == id
  {
    var n := |accounts| - 1;
    if accounts[n].id == id then accounts[n] else LastOf(accounts[..n], id)
  }

  /** Of its id, the last account's state means to each account what its own entry says. */
  ghost predicate SharingAgrees(accounts: seq<Account>) {
    forall account :: account in accounts ==>
      ReadsBack(account, AccountRuntimeState(LastOf(accounts, account.id)))
  }

  lemma {:induction false} StateOfLast(accounts: seq<Account>, id: string)
    requires exists a :: a in accounts && a.id == id
    ensures id in StateRows(accounts) && StateRows(accounts)[id] == AccountRuntimeState(LastOf(accounts, id))
    decreases |accounts|
  {
    hide AccountRuntimeState;
    var n := |accounts| - 1;
    if accounts[n].id != id { StateOfLast(accounts[..n], id); }
  }

  /** With distinct ids every account has its own state, and it is the corrupt ones used before that do not agree. */
  lemma {:induction false} DistinctAgreeExactlyWhen(accounts: seq<Account>, context: Context)
    requires DistinctIds(accounts) && forall account :: account in accounts ==> NormalAccount(account, context)
    ensures SharingAgrees(accounts) <==> forall account :: account in accounts ==> Keepable(account)
  {
    forall account | account in accounts
      ensures ReadsBack(account, AccountRuntimeState(LastOf(accounts, account.id))) <==> Keepable(account)
    {
      assert LastOf(accounts, account.id) == account;
      OwnReadsBack(account, context);
    }
    hide NormalAccount;
    hide Keepable;
    hide ReadsBack;
  }

  lemma OwnReadsBack(account: Account, context: Context)
    requires NormalAccount(account, context)
    ensures ReadsBack(account, AccountRuntimeState(account)) <==> Keepable(account)
  {
    if account.Corrupt? {
      assert CorruptEntry(map[]) == map[];
      assert LastUsed in account.entry || account.entry == map[];
    }
  }

  lemma OAuthEntryAgain(fields: Fields, number: Coercion)
    ensures OAuthEntry(OAuthEntry(fields, number), number) == OAuthEntry(fields, number)
  {
    hide Normal;
    var once := OAuthEntry(fields, number);
    forall key | key in once ensures OAuthField(key, once[key], number) == Some(once[key]) {
      var v := fields[key];
      if key.LastRefreshError? || key.LastQuotaRefreshError? { NormalAgain(ErrorShape, v, number); }
      if key.Quota? { NormalAgain(QuotaShape, v, number); }
    }
    assert OAuthEntry(once, number).Keys == once.Keys;
  }

  lemma BaseSettingsAgain(fields: Fields)
    ensures BaseSettings(BaseSettings(fields)) == BaseSettings(fields)
    ensures BaseSettings(ApiSettings(fields)) == BaseSettings(fields)
    ensures CorruptEntry(CorruptEntry(fields)) == CorruptEntry(fields)
  {
    hide Trimmed;
  }

  lemma SettingsAgain(fields: Fields)
    ensures ApiSettings(ApiSettings(fields)) == ApiSettings(fields)
    ensures Trimmed(ApiSettings(fields), BaseURL) == Trimmed(fields, BaseURL)
  {
    BaseSettingsAgain(fields);
    TrimmedAgain(fields, BaseURL);
    hide BaseSettings;
    var once := ApiSettings(fields);
    assert Get(once, BaseURL) == Some(Str(Trimmed(fields, BaseURL)));
    assert GetStr(once, BaseURL) == Some(Trimmed(fields, BaseURL));
    assert GetStr(once, AuthHeader)
        == Some(if Get(fields, AuthHeader) == Some(Str(X_API_KEY)) then X_API_KEY else BEARER);
  }

  lemma TrimmedAgain(fields: Fields, key: Key)
    ensures Trim(Trimmed(fields, key)) == Trimmed(fields, key)
  {
    if GetStr(fields, key).Some? { TrimTwice(GetStr(fields, key).value); }
  }

  lemma ApiEntryAgain(fields: Fields)
    ensures ApiEntry(ApiEntry(fields)) == ApiEntry(fields)
  {
    if GetStr(fields, ApiKey).Some? { TrimTwice(GetStr(fields, ApiKey).value); }
    hide Trim;
  }

  lemma RefreshStays(fields: Fields, number: Coercion)
    ensures Trimmed(OAuthEntry(fields, number), Refresh) == Trimmed(fields, Refresh)
  {
    hide Trim;
  }

  /** Whatever loads is normal. */
  lemma NormalizedIsNormal(row: Json, uuid: string, context: Context)
    requires Proper(uuid)
    ensures var account := NormalizeAccount(row, uuid, context);
            account.Some? ==> NormalAccount(account.value, context)
  {
    if row.Obj? {
      RosterIdIsProper(row);
      OAuthEntryAgain(row.fields, context.number);
      ApiEntryAgain(row.fields);
      BaseSettingsAgain(row.fields);
      SettingsAgain(row.fields);
      RefreshStays(row.fields, context.number);
      hide Trimmed;
      hide OAuthEntry;
      hide ApiEntry;
      hide BaseSettings;
      hide ApiSettings;
      hide RosterId;
    }
  }

  lemma {:induction false} LoadedAreNormal(rows: seq<Json>, state: State, context: Context)
    requires |context.uuids| >= |rows| && forall i :: 0 <= i < |context.uuids| ==> Proper(context.uuids[i])
    ensures forall account :: account in LoadRows(rows, state, context) ==> NormalAccount(account, context)
    decreases |rows|
  {
    hide NormalAccount;
    hide NormalizeAccount;
    if rows != [] {
      var n := |rows| - 1;
      LoadedAreNormal(rows[..n], state, context);
      NormalizedIsNormal(MergedRow(rows[n], state), context.uuids[n], context);
    }
  }

  /** An account's row with a state entry laid over it. */
  function Written(account: Account, entry: Fields): Json {
    Obj(AccountConfig(account).fields + entry)
  }

  /** The state entry of some account, as loading leaves it. */
  ghost predicate NormalEntry(entry: Fields, context: Context) {
    exists other :: NormalAccount(other, context) && entry == AccountRuntimeState(other)
  }

  /** Normalising a written row gives the account back exactly when it reads its own entry from the state. */
  lemma NormalizeAgain(account: Account, entry: Fields, uuid: string, context: Context)
    requires NormalAccount(account, context) && NormalEntry(entry, context)
    ensures NormalizeAccount(Written(account, entry), uuid, context) == Some(account) <==> ReadsBack(account, entry)
  {
    hide NormalAccount;
    hide NormalEntry;
    hide NormalizeAccount;
    hide Written;
    match account
    case OAuth(_, _, _) => OAuthAgain(account, entry, uuid, context);
    case Corrupt(_, _, _) => CorruptAgain(account, entry, uuid, context);
    case Api(_, _, _) => ApiAgain(account, entry, uuid, context);
  }

  predicate IsRuntimeKey(key: Key) {
    || key.Access? || key.Refresh? || key.Expires? || key.LastRefreshedAt? || key.LastRefreshError? || key.LastUsed?
    || key.LastQuotaRefreshError? || key.Quota? || key.ApiKey?
  }

  predicate IsSettingKey(key: Key) {
    key.Label? || key.Enabled? || key.AddedAt? || key.AccountId? || key.BaseURL? || key.AuthHeader?
  }

  lemma NormalKeys(account: Account, context: Context)
    requires NormalAccount(account, context)
    ensures forall key :: key in account.entry ==> IsRuntimeKey(key)
    ensures forall key :: key in account.settings ==> IsSettingKey(key)
  {
    hide Normal;
    match account
    case OAuth(_, entry, settings) =>
      assert forall key :: key in OAuthEntry(entry, context.number) ==> IsRuntimeKey(key);
      assert forall key :: key in BaseSettings(settings) ==> IsSettingKey(key);
    case Corrupt(_, entry, settings) =>
      assert forall key :: key in CorruptEntry(entry) ==> IsRuntimeKey(key);
      assert forall key :: key in BaseSettings(settings) ==> IsSettingKey(key);
    case Api(_, entry, settings) =>
      assert forall key :: key in ApiEntry(entry) ==> IsRuntimeKey(key);
      assert forall key :: key in ApiSettings(settings) ==> IsSettingKey(key);
  }

  lemma EntryKeys(entry: Fields, context: Context)
    requires NormalEntry(entry, context)
    ensures forall key :: key in entry ==> IsRuntimeKey(key)
  {
    var other :| NormalAccount(other, context) && entry == AccountRuntimeState(other);
    NormalKeys(other, context);
  }

  /** Which file each field of the written row comes from. */
  lemma WrittenFields(account: Account, entry: Fields, context: Context)
    requires NormalAccount(account, context) && NormalEntry(entry, context)
    ensures var fields := Written(account, entry).fields;
            && GetStr(fields, Id) == Some(account.id) && RosterId(Written(account, entry)) == Some(account.id)
            && Get(fields, Type) == Some(if account.Api? then API else OAUTH)
            && Get(fields, CorruptFlag) == (if account.Corrupt? then Some(Bool(true)) else None)
            && (forall key :: IsRuntimeKey(key) ==> Get(fields, key) == Get(entry, key))
            && (forall key :: IsSettingKey(key) ==> Get(fields, key) == Get(account.settings, key))
  {
    NormalKeys(account, context);
    EntryKeys(entry, context);
    ProperId(account, context);
    WrittenId(account, entry);
    hide NormalAccount;
    hide RosterId;
    hide Trim;
    WrittenParts(account, entry);
    hide Written;
    hide Get;
    hide GetStr;
  }

  lemma WrittenParts(account: Account, entry: Fields)
    requires forall key :: key in entry ==> IsRuntimeKey(key)
    requires forall key :: key in account.settings ==> IsSettingKey(key)
    ensures var fields := Written(account, entry).fields;
            && Get(fields, Type) == Some(if account.Api? then API else OAUTH)
            && Get(fields, CorruptFlag) == (if account.Corrupt? then Some(Bool(true)) else None)
            && (forall key :: IsRuntimeKey(key) ==> Get(fields, key) == Get(entry, key))
            && (forall key :: IsSettingKey(key) ==> Get(fields, key) == Get(account.settings, key))
  {
    ConfigFields(account);
    Overlay(AccountConfig(account).fields, entry);
    hide AccountConfig;
  }

  lemma Overlay(a: Fields, b: Fields)
    ensures forall key :: Get(a + b, key) == if key in b then Get(b, key) else Get(a, key)
  {
  }

  lemma WrittenId(account: Account, entry: Fields)
    requires Trim(account.id) == account.id && account.id != ""
    requires forall key :: key in entry ==> IsRuntimeKey(key)
    ensures GetStr(Written(account, entry).fields, Id) == Some(account.id)
    ensures RosterId(Written(account, entry)) == Some(account.id)
  {
    hide Trim;
  }

  lemma ConfigFields(account: Account)
    requires forall key :: key in account.settings ==> IsSettingKey(key)
    ensures var config := AccountConfig(account).fields;
            && Get(config, Id) == Some(Str(account.id))
            && Get(config, Type) == Some(if account.Api? then API else OAUTH)
            && Get(config, CorruptFlag) == (if account.Corrupt? then Some(Bool(true)) else None)
            && (forall key :: IsRuntimeKey(key) ==> key !in config)
            && (forall key :: IsSettingKey(key) ==> Get(config, key) == Get(account.settings, key))
  {
  }

  lemma ProperId(account: Account, context: Context)
    requires NormalAccount(account, context)
    ensures Trim(account.id) == account.id && account.id != ""
  {
  }

  /** Records that agree on the settings an account has give the same settings. */
  lemma SameSettings(a: Fields, b: Fields)
    requires forall key :: IsSettingKey(key) ==> Get(a, key) == Get(b, key)
    ensures BaseSettings(a) == BaseSettings(b) && ApiSettings(a) == ApiSettings(b)
    ensures Trimmed(a, BaseURL) == Trimmed(b, BaseURL)
  {
    hide Trim;
    forall key ensures key in BaseSettings(a) <==> key in BaseSettings(b) {
      assert IsSettingKey(key) ==> Get(a, key) == Get(b, key);
    }
    forall key | key in BaseSettings(a) ensures BaseSettings(a)[key] == BaseSettings(b)[key] {
      assert Get(a, key) == Get(b, key);
    }
    assert Get(a, BaseURL) == Get(b, BaseURL) && Get(a, AuthHeader) == Get(b, AuthHeader);
  }

  /** Records that agree on the runtime fields give the same runtime entry. */
  lemma SameEntry(a: Fields, b: Fields, number: Coercion)
    requires forall key :: IsRuntimeKey(key) ==> Get(a, key) == Get(b, key)
    ensures OAuthEntry(a, number) == OAuthEntry(b, number) && ApiEntry(a) == ApiEntry(b)
    ensures CorruptEntry(a) == CorruptEntry(b) && HasRefresh(a) == HasRefresh(b) && (Refresh in a <==> Refresh in b)
  {
    hide Trim;
    hide Normal;
    forall key | IsRuntimeKey(key) ensures (key in a <==> key in b) && (key in a ==> a[key] == b[key]) {
      assert Get(a, key) == Get(b, key);
    }
    assert forall key :: key in OAuthEntry(a, number) <==> key in OAuthEntry(b, number);
    assert forall key :: key in ApiEntry(a) <==> key in ApiEntry(b);
    assert forall key :: key in CorruptEntry(a) <==> key in CorruptEntry(b);
  }

  /** An entry with a token is that of an account with tokens, and as that account has it. */
  lemma TokenEntry(entry: Fields, context: Context)
    requires NormalEntry(entry, context) && HasRefresh(entry)
    ensures OAuthEntry(entry, context.number) == entry
  {
    var other :| NormalAccount(other, context) && entry == AccountRuntimeState(other);
    if other.Api? { assert Refresh !in ApiEntry(entry); }
  }

  lemma TokenAccount(account: Account, context: Context)
    requires NormalAccount(account, context) && account.OAuth?
    ensures HasRefresh(account.entry) && OAuthEntry(account.entry, context.number) == account.entry
    ensures BaseSettings(account.settings) == account.settings
  {
  }

  /** A row of that type that is not marked corrupt stands for an account with tokens exactly if it has one. */
  lemma OAuthRow(row: Json, id: string, uuid: string, context: Context)
    requires row.Obj? && RosterId(row) == Some(id)
    requires Get(row.fields, Type) == Some(OAUTH) && Get(row.fields, CorruptFlag) == None
    ensures var account := NormalizeAccount(row, uuid, context);
            if HasRefresh(row.fields)
            then account == Some(OAuth(id, OAuthEntry(row.fields, context.number), BaseSettings(row.fields)))
            else !(account.Some? && account.value.OAuth?)
  {
    hide RosterId;
    hide HasRefresh;
    hide OAuthEntry;
    hide BaseSettings;
  }

  lemma OAuthAgain(account: Account, entry: Fields, uuid: string, context: Context)
    requires NormalAccount(account, context) && NormalEntry(entry, context) && account.OAuth?
    ensures NormalizeAccount(Written(account, entry), uuid, context) == Some(account) <==> entry == account.entry
  {
    var fields := Written(account, entry).fields;
    WrittenFields(account, entry, context);
    SameSettings(fields, account.settings);
    SameEntry(fields, entry, context.number);
    if HasRefresh(entry) { TokenEntry(entry, context); }
    TokenAccount(account, context);
    OAuthRow(Written(account, entry), account.id, uuid, context);
    hide *;
  }

  lemma CorruptAgain(account: Account, entry: Fields, uuid: string, context: Context)
    requires NormalAccount(account, context) && NormalEntry(entry, context) && account.Corrupt?
    ensures NormalizeAccount(Written(account, entry), uuid, context) == Some(account)
       <==> CorruptEntry(entry) == account.entry
  {
    var fields := Written(account, entry).fields;
    WrittenFields(account, entry, context);
    SameSettings(fields, account.settings);
    SameEntry(fields, entry, context.number);
    hide Written;
    hide NormalEntry;
    hide BaseSettings;
    hide CorruptEntry;
  }

  lemma ApiAgain(account: Account, entry: Fields, uuid: string, context: Context)
    requires NormalAccount(account, context) && NormalEntry(entry, context) && account.Api?
    ensures NormalizeAccount(Written(account, entry), uuid, context) == Some(account)
       <==> ApiEntry(entry) == account.entry
  {
    var fields := Written(account, entry).fields;
    WrittenFields(account, entry, context);
    SameSettings(fields, account.settings);
    SameEntry(fields, entry, context.number);
    hide Written;
    hide NormalEntry;
    hide ApiEntry;
    hide ApiSettings;
  }

  /** The rows written, loaded with their state, one by one. */
  lemma {:induction false} LoadWritten(accounts: seq<Account>, rows: seq<Json>, state: State, context: Context)
    requires |context.uuids| >= |rows| && rows == ConfigRows(accounts)
    requires forall i :: 0 <= i < |accounts| ==> StateFor(accounts[i], rows[i], state, context)
    ensures |LoadRows(rows, state, context)| <= |accounts|
    ensures LoadRows(rows, state, context) == accounts
       <==> forall i :: 0 <= i < |accounts| ==> HasOwn(accounts[i], state)
    decreases |accounts|
  {
    hide StateFor;
    hide HasOwn;
    hide NormalizeAccount;
    hide AccountConfig;
    hide Written;
    hide MergedRow;
    if accounts != [] {
      var n := |accounts| - 1;
      assert ConfigRows(accounts[..n]) == rows[..n];
      LoadWritten(accounts[..n], rows[..n], state, context);
      RowReadsBack(accounts[n], rows[n], state, context.uuids[n], context);
      var loaded := LoadRows(rows, state, context);
      var front := LoadRows(rows[..n], state, context);
      assert accounts == accounts[..n] + [accounts[n]];
      if |loaded| == |accounts| { assert loaded[..n] == front; }
      assert loaded == accounts ==> loaded[..n] == accounts[..n] && loaded[n] == accounts[n];
    }
  }

  /** The row is that of the account, and the state has a normal entry for it. */
  ghost predicate StateFor(account: Account, row: Json, state: State, context: Context) {
    && NormalAccount(account, context) && account.id in state && NormalEntry(state[account.id], context)
    && MergedRow(row, state) == Written(account, state[account.id])
  }

  predicate HasOwn(account: Account, state: State) {
    account.id in state && ReadsBack(account, state[account.id])
  }

  lemma RowReadsBack(account: Account, row: Json, state: State, uuid: string, context: Context)
    requires StateFor(account, row, state, context)
    ensures NormalizeAccount(MergedRow(row, state), uuid, context) == Some(account) <==> HasOwn(account, state)
  {
    NormalizeAgain(account, state[account.id], uuid, context);
  }

  /**
   Normal accounts come back from the two files exactly when, for each, the state of the last account of its
   id reads as its own: the same entry for an account with tokens, the same key and time of last use for one
   with an API key, and the same time of last use for a corrupt one.
   */
  lemma AccountsRoundTripExactlyWhen(accounts: seq<Account>, context: Context)
    requires |context.uuids| >= |accounts|
    requires forall account :: account in accounts ==> NormalAccount(account, context)
    ensures LoadRows(ConfigRows(accounts), StateRows(accounts), context) == accounts <==> SharingAgrees(accounts)
  {
    hide NormalAccount;
    hide AccountRuntimeState;
    var rows, state := ConfigRows(accounts), StateRows(accounts);
    forall i | 0 <= i < |accounts| ensures StateFor(accounts[i], rows[i], state, context) {
      StateOfLast(accounts, accounts[i].id);
      assert NormalAccount(LastOf(accounts, accounts[i].id), context);
      WrittenIsMerged(accounts[i], state, context);
    }
    forall account | account in accounts
      ensures account.id in state && state[account.id] == AccountRuntimeState(LastOf(accounts, account.id))
    {
      StateOfLast(accounts, account.id);
    }
    hide ReadsBack;
    hide StateFor;
    hide LastOf;
    LoadWritten(accounts, rows, state, context);
    forall i | 0 <= i < |accounts| ensures accounts[i] in accounts {
    }
  }

  lemma WrittenIsMerged(account: Account, state: State, context: Context)
    requires NormalAccount(account, context) && account.id in state
    ensures MergedRow(AccountConfig(account), state) == Written(account, state[account.id])
  {
  }

  // ---------------------------------------------------------------------
  // Settings come back
  // ---------------------------------------------------------------------

  /** Nothing in the `refresh` and `quota` records but what the two files have a place for. */
  predicate NoExtraKeys(settings: Fields) {
    && (forall key :: key in GetObj(settings, Refresh) ==> InConfig(Refresh, key) || InState(Refresh, key))
    && (forall key :: key in GetObj(settings, Quota) ==> InConfig(Quota, key) || InState(Quota, key))
  }

  /** The settings are as loading leaves them. */
  ghost predicate NormalStorageSettings(settings: Fields, number: Coercion) {
    && NormalSettings(settings, number) == settings
    && Refresh in settings && settings[Refresh].Obj? && Quota in settings && settings[Quota].Obj?
  }

  lemma SettingsAreNormal(settings: Fields, main: Option<Fields>, number: Coercion)
    ensures NormalStorageSettings(NormalSettings(MergedSettings(settings, main), number), number)
  {
    var merged := MergedSettings(settings, main);
    var once := NormalSettings(merged, number);
    hide MergedRefresh;
    hide MergedQuota;
    forall key | key in once ensures Setting(key, once[key], number) == Some(once[key]) {
      SettingAgain(key, merged[key], number);
    }
    assert Setting(Refresh, merged[Refresh], number) == Some(merged[Refresh]);
    assert Setting(Quota, merged[Quota], number) == Some(merged[Quota]);
    assert NormalSettings(once, number).Keys == once.Keys;
  }

  lemma MainFields(settings: Fields)
    ensures var main, quota, refresh := MainOf(settings), GetObj(settings, Quota), GetObj(settings, Refresh);
            && Get(main, Quota) == Get(quota, MainQuota) && Get(main, QuotaCheckedAt) == Get(quota, MainQuotaCheckedAt)
            && Get(main, QuotaToken) == Get(quota, MainQuotaToken)
            && Get(main, LastQuotaApiError) == Get(quota, MainLastQuotaApiError)
            && Get(main, LastRefreshError) == Get(refresh, MainLastRefreshError)
            && Get(main, RefreshLeaseId) == Get(refresh, MainRefreshLeaseId)
            && Get(main, RefreshLeaseUntil) == Get(refresh, MainRefreshLeaseUntil)
            && Get(main, RefreshLeaseTokenHash) == Get(refresh, MainRefreshLeaseTokenHash)
  {
    assert forall key :: Get(MainOf(settings), key) == if key in MAIN_KEYS then MainField(settings, key) else None;
  }

  /** The refresh record comes back but for the properties no file has a place for. */
  lemma RefreshComesBack(refresh: Fields, main: Fields)
    requires Get(main, LastRefreshError) == Get(refresh, MainLastRefreshError)
    requires Get(main, RefreshLeaseId) == Get(refresh, MainRefreshLeaseId)
    requires Get(main, RefreshLeaseUntil) == Get(refresh, MainRefreshLeaseUntil)
    requires Get(main, RefreshLeaseTokenHash) == Get(refresh, MainRefreshLeaseTokenHash)
    ensures MergedRefresh(ConfigPart(Refresh, refresh), Some(main))
         == WithoutExtra(Refresh, refresh)
  {
    var kept := ConfigPart(Refresh, refresh);
    assert !LeaseHeld(kept) && MainLastRefreshError !in kept;
    var back := MergedRefresh(kept, Some(main));
    forall key
      ensures Get(back, key) == if InConfig(Refresh, key) || InState(Refresh, key) then Get(refresh, key) else None
    {
    }
    SameGets(back, WithoutExtra(Refresh, refresh));
  }

  lemma QuotaComesBack(quota: Fields, main: Fields)
    requires Get(main, Quota) == Get(quota, MainQuota) && Get(main, QuotaCheckedAt) == Get(quota, MainQuotaCheckedAt)
    requires Get(main, QuotaToken) == Get(quota, MainQuotaToken)
    requires Get(main, LastQuotaApiError) == Get(quota, MainLastQuotaApiError)
    ensures MergedQuota(ConfigPart(Quota, quota), Some(main))
         == WithoutExtra(Quota, quota)
  {
    var back := MergedQuota(ConfigPart(Quota, quota), Some(main));
    forall key ensures Get(back, key) == if InConfig(Quota, key) || InState(Quota, key) then Get(quota, key) else None {
    }
    SameGets(back, WithoutExtra(Quota, quota));
  }

  lemma SameGets(a: Fields, b: Fields)
    requires forall key :: Get(a, key) == Get(b, key)
    ensures a == b
  {
    forall key ensures (key in a <==> key in b) && (key in a ==> a[key] == b[key]) {
      assert Get(a, key) == Get(b, key);
    }
  }

  /** The properties some file has a place for. */
  function WithoutExtra(record: Key, fields: Fields): Fields {
    map key | key in fields && (InConfig(record, key) || InState(record, key)) :: fields[key]
  }

  function BackSettings(settings: Fields): Fields {
    settings[Refresh := Obj(WithoutExtra(Refresh, GetObj(settings, Refresh)))]
            [Quota := Obj(WithoutExtra(Quota, GetObj(settings, Quota)))]
  }

  /** The settings come back, but for properties no file has a place for. */
  lemma SettingsComeBack(storage: Storage, number: Coercion)
    requires NormalStorageSettings(storage.settings, number)
    ensures NormalSettings(MergedSettings(ConfigOf(storage).settings, StateOf(storage).main), number)
         == BackSettings(storage.settings)
  {
    var settings := storage.settings;
    WrittenSettings(storage);
    MainFields(settings);
    RefreshComesBack(GetObj(settings, Refresh), MainOf(settings));
    QuotaComesBack(GetObj(settings, Quota), MainOf(settings));
    BackIsMerged(settings, ConfigOf(storage).settings, MainOf(settings));
    hide ConfigOf;
    hide MergedSettings;
    hide GetObj;
    hide MainOf;
    hide NormalSettings;
    AllKept(settings, BackSettings(settings), number);
  }

  lemma WrittenSettings(storage: Storage)
    requires Refresh in storage.settings && Quota in storage.settings
    ensures var settings, written := storage.settings, ConfigOf(storage).settings;
            && written.Keys == settings.Keys
            && GetObj(written, Refresh) == ConfigPart(Refresh, GetObj(settings, Refresh))
            && GetObj(written, Quota) == ConfigPart(Quota, GetObj(settings, Quota))
            && forall key :: key in written && !key.Refresh? && !key.Quota? ==> written[key] == settings[key]
  {
    hide ConfigPart;
  }

  lemma BackIsMerged(settings: Fields, written: Fields, main: Fields)
    requires written.Keys == settings.Keys
    requires forall key :: key in written && !key.Refresh? && !key.Quota? ==> written[key] == settings[key]
    requires MergedRefresh(GetObj(written, Refresh), Some(main)) == WithoutExtra(Refresh, GetObj(settings, Refresh))
    requires MergedQuota(GetObj(written, Quota), Some(main)) == WithoutExtra(Quota, GetObj(settings, Quota))
    ensures MergedSettings(written, Some(main)) == BackSettings(settings)
  {
    hide MergedRefresh;
    hide MergedQuota;
    hide WithoutExtra;
    hide GetObj;
  }

  lemma AllKept(settings: Fields, expected: Fields, number: Coercion)
    requires NormalStorageSettings(settings, number)
    requires expected.Keys == settings.Keys && Refresh in expected && expected[Refresh].Obj? && expected[Quota].Obj?
    requires forall key :: key in expected && !key.Refresh? && !key.Quota? ==> expected[key] == settings[key]
    ensures NormalSettings(expected, number) == expected
  {
    forall key | key in expected ensures Setting(key, expected[key], number) == Some(expected[key]) {
      assert key in NormalSettings(settings, number);
    }
    hide Setting;
    assert NormalSettings(expected, number).Keys == expected.Keys;
  }

  lemma ExtraIsLost(settings: Fields)
    requires Refresh in settings && settings[Refresh].Obj? && Quota in settings && settings[Quota].Obj?
    ensures BackSettings(settings) == settings <==> NoExtraKeys(settings)
  {
    var refresh, quota := GetObj(settings, Refresh), GetObj(settings, Quota);
    WithoutIsAll(Refresh, refresh);
    WithoutIsAll(Quota, quota);
    hide WithoutExtra;
    var back := BackSettings(settings);
    assert back[Refresh] == Obj(WithoutExtra(Refresh, refresh)) && back[Quota] == Obj(WithoutExtra(Quota, quota));
  }

  lemma WithoutIsAll(record: Key, fields: Fields)
    ensures WithoutExtra(record, fields) == fields
       <==> forall key :: key in fields ==> InConfig(record, key) || InState(record, key)
  {
    var kept := WithoutExtra(record, fields);
    assert kept == fields ==> forall key :: key in fields ==> key in kept;
  }

  // ---------------------------------------------------------------------
  // The whole storage
  // ---------------------------------------------------------------------

  /**
   A storage that was loaded comes back from the two files it is split into exactly when its `refresh` and
   `quota` records have no properties but the known ones, and accounts of one id agree on their state; if no
   two share an id, when no corrupt account has a time of last use.
   */
  lemma StorageRoundTripExactlyWhen(config: ConfigFile, state: StateFile, context: Context, again: Context)
    requires |context.uuids| >= |config.accounts| && again.number == context.number
    requires again.acceptable == context.acceptable
    requires forall i :: 0 <= i < |context.uuids| ==> Proper(context.uuids[i])
    requires |again.uuids| >= |Load(config, state, context).accounts|
    ensures var storage := Load(config, state, context);
            && (Load(ConfigOf(storage), StateOf(storage), again) == storage
                <==> NoExtraKeys(storage.settings) && SharingAgrees(storage.accounts))
            && (DistinctIds(storage.accounts) ==>
                  (SharingAgrees(storage.accounts)
                   <==> forall account :: account in storage.accounts ==> Keepable(account)))
  {
    var storage := Load(config, state, context);
    SettingsAreNormal(config.settings, state.main, context.number);
    SettingsComeBack(storage, context.number);
    ExtraIsLost(storage.settings);
    LoadedAreNormal(config.accounts, state.accounts, context);
    forall account | account in storage.accounts ensures NormalAccount(account, again) {
      SameContext(account, context, again);
    }
    AccountsRoundTripExactlyWhen(storage.accounts, again);
    if DistinctIds(storage.accounts) { DistinctAgreeExactlyWhen(storage.accounts, again); }
    hide SharingAgrees;
    hide DistinctIds;
    hide NormalAccount;
    hide NormalStorageSettings;
    hide NoExtraKeys;
    hide Keepable;
    hide NormalSettings;
    hide MergedSettings;
    hide LoadRows;
  }

  lemma SameContext(account: Account, context: Context, again: Context)
    requires NormalAccount(account, context)
    requires again.number == context.number && again.acceptable == context.acceptable
    ensures NormalAccount(account, again)
  {
  }

  /** The three parts of the main account's lease: its id, its end and the hash of its token. */
  datatype Lease = Lease(id: Option<Json>, until: Option<Json>, tokenHash: Option<Json>)

  function MainLease(settings: Fields): Lease {
    var refresh := GetObj(settings, Refresh);
    Lease(Get(refresh, MainRefreshLeaseId), Get(refresh, MainRefreshLeaseUntil),
          Get(refresh, MainRefreshLeaseTokenHash))
  }

  function SlotLease(slot: Fields): Lease {
    Lease(Get(slot, RefreshLeaseId), Get(slot, RefreshLeaseUntil), Get(slot, RefreshLeaseTokenHash))
  }

  /**
   A loaded lease is never put together from two files: if the config file has the id of one, all three parts
   are the config file's, whatever the state file holds, and else all three are the main slot's. Splitting the
   storage and loading it again leaves the lease as it was.
   */
  lemma LeaseIsWhole(config: ConfigFile, state: StateFile, context: Context, again: Context)
    requires |context.uuids| >= |config.accounts| && again.number == context.number
    requires |again.uuids| >= |Load(config, state, context).accounts|
    ensures var storage := Load(config, state, context);
            var refresh := GetObj(config.settings, Refresh);
            && MainLease(storage.settings)
               == (if LeaseHeld(refresh) then MainLease(config.settings)
                   else SlotLease(MainSource(state.main, refresh)))
            && MainLease(Load(ConfigOf(storage), StateOf(storage), again).settings) == MainLease(storage.settings)
  {
    var storage := Load(config, state, context);
    LoadedLease(config.settings, state.main, context.number);
    SettingsAreNormal(config.settings, state.main, context.number);
    SettingsComeBack(storage, context.number);
    LeaseIsNoExtra(storage.settings);
    hide MainLease;
    hide SlotLease;
    hide MainSource;
    hide LeaseHeld;
    hide NormalSettings;
    hide MergedSettings;
    hide BackSettings;
    hide NormalStorageSettings;
    hide ConfigOf;
    hide StateOf;
    hide LoadRows;
    hide GetObj;
  }

  lemma LoadedLease(settings: Fields, main: Option<Fields>, number: Coercion)
    ensures MainLease(NormalSettings(MergedSettings(settings, main), number))
         == if LeaseHeld(GetObj(settings, Refresh)) then MainLease(settings)
            else SlotLease(MainSource(main, GetObj(settings, Refresh)))
  {
    var merged := MergedSettings(settings, main);
    RefreshIsKept(merged, number);
    MergedLease(GetObj(settings, Refresh), main);
    hide NormalSettings;
    hide MergedRefresh;
    hide MergedQuota;
    assert GetObj(merged, Refresh) == MergedRefresh(GetObj(settings, Refresh), main);
  }

  lemma MergedLease(refresh: Fields, main: Option<Fields>)
    ensures var merged, slot := MergedRefresh(refresh, main), SlotLease(MainSource(main, refresh));
            var held := LeaseHeld(refresh);
            && Get(merged, MainRefreshLeaseId) == (if held then Get(refresh, MainRefreshLeaseId) else slot.id)
            && Get(merged, MainRefreshLeaseUntil) == (if held then Get(refresh, MainRefreshLeaseUntil) else slot.until)
            && Get(merged, MainRefreshLeaseTokenHash)
               == (if held then Get(refresh, MainRefreshLeaseTokenHash) else slot.tokenHash)
  {
  }

  lemma RefreshIsKept(settings: Fields, number: Coercion)
    requires Refresh in settings && settings[Refresh].Obj?
    ensures GetObj(NormalSettings(settings, number), Refresh) == GetObj(settings, Refresh)
  {
    assert Setting(Refresh, settings[Refresh], number) == Some(settings[Refresh]);
  }

  lemma LeaseIsNoExtra(settings: Fields)
    ensures MainLease(BackSettings(settings)) == MainLease(settings)
  {
  }

  // ---------------------------------------------------------------------
  // What does not come back
  // ---------------------------------------------------------------------

  /** A `quota` record with a property of its own loses it. */
  lemma ExtraKeyIsLost(context: Context, again: Context)
    requires again.number == context.number && again.acceptable == context.acceptable && context.uuids == []
    ensures var config := ConfigFile(map[Quota := Obj(map[Other("note") := Null])], []);
            var storage := Load(config, StateFile(None, map[]), context);
            && Other("note") in GetObj(storage.settings, Quota)
            && Load(ConfigOf(storage), StateOf(storage), again) != storage
  {
    var quota: Fields := map[Other("note") := Null];
    var config, state := ConfigFile(map[Quota := Obj(quota)], []), StateFile(None, map[]);
    QuotaStays(config.settings, quota, context.number);
    hide MergedSettings;
    hide NormalSettings;
    hide ConfigOf;
    hide StateOf;
    var storage := Load(config, state, context);
    assert storage.accounts == [] && Other("note") in GetObj(storage.settings, Quota);
    assert !NoExtraKeys(storage.settings);
    hide Load;
    hide NoExtraKeys;
    hide GetObj;
    StorageRoundTripExactlyWhen(config, state, context, again);
  }

  lemma QuotaStays(settings: Fields, quota: Fields, number: Coercion)
    requires GetObj(settings, Quota) == quota && quota == map[Other("note") := Null]
    ensures GetObj(NormalSettings(MergedSettings(settings, None), number), Quota) == quota
  {
    assert MergedQuota(quota, None) == quota;
    hide MergedQuota;
    hide MergedRefresh;
    var merged := MergedSettings(settings, None);
    assert Setting(Quota, merged[Quota], number) == Some(Obj(quota));
  }

  /** A corrupt account that was used loses the time. */
  lemma LastUseOfCorruptIsLost(context: Context)
    requires |context.uuids| >= 1
    ensures var account := Corrupt("a", map[LastUsed := Num(1.0)], map[]);
            LoadRows(ConfigRows([account]), StateRows([account]), context) == [Corrupt("a", map[], map[])]
  {
  }

  /** Two accounts of one id with different tokens: both come back with the token of the second. */
  lemma SharedIdIsLost(context: Context)
    requires |context.uuids| >= 2
    ensures var x, y := OAuth("a", map[Refresh := Str("x")], map[]), OAuth("a", map[Refresh := Str("y")], map[]);
            LoadRows(ConfigRows([x, y]), StateRows([x, y]), context) != [x, y]
  {
    var x, y := OAuth("a", map[Refresh := Str("x")], map[]), OAuth("a", map[Refresh := Str("y")], map[]);
    var accounts := [x, y];
    LettersAreNormal("x", context);
    LettersAreNormal("y", context);
    assert accounts[0] in accounts && accounts[1].id == "a" && LastOf(accounts, "a") == y;
    assert x.entry[Refresh] != y.entry[Refresh] && !ReadsBack(x, AccountRuntimeState(y));
    hide NormalAccount;
    AccountsRoundTripExactlyWhen(accounts, context);
  }

  lemma LettersAreNormal(token: string, context: Context)
    requires |token| == 1 && Trim(token) == token
    ensures NormalAccount(OAuth("a", map[Refresh := Str(token)], map[]), context)
  {
  }
}
