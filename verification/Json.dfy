/** JSON values as they are read from a file. */
module Json {
  import opened Options

  /** The property names the program knows; any other is `Other`. */
  datatype Key =
    | Type | Status | Response
    // An account's settings
    | Id | Label | Enabled | AddedAt | AccountId | CorruptFlag | BaseURL | AuthHeader
    // An account's runtime state
    | Access | Refresh | Expires | LastRefreshedAt | LastRefreshError | LastUsed | LastQuotaRefreshError | Quota
    | ApiKey
    // An error record
    | Message | CheckedAt | NextRetryAt | RetryCount | TokenHash
    // A quota snapshot
    | Primary | Secondary | UsedPercent | RemainingPercent | ResetsAt | WindowMinutes
    | ResetCreditsAvailable | ResetCreditsApplicable | SpendControl | Limit | Used | Remaining | Unit | Source | Reached
    | Credits | HasCredits | Unlimited | OverageLimitReached | Balance
    // Settings of the store
    | Routing | FallbackOn | Reset | Dump | CostZeroing | Killswitch | Logging | Cachekeep | CacheKeep | MainAccountId
    | RefreshBeforeExpiryMinutes | MainLastRefreshError
    | MainRefreshLeaseId | MainRefreshLeaseUntil | MainRefreshLeaseTokenHash
    | CheckIntervalMinutes | RefreshEveryNRequests | MinimumRemaining | FailClosedOnUnknownQuota
    | MainQuota | MainQuotaCheckedAt | MainQuotaToken | MainLastQuotaApiError
    // The main slot in the state file
    | QuotaCheckedAt | QuotaToken | LastQuotaApiError | RefreshLeaseId | RefreshLeaseUntil | RefreshLeaseTokenHash
    // The reset state of an account
    | InFlight | LastOutcome | Code | At | PreviousOutcome | CooldownUntil
    | Other(name: string)

  /** A value; a table is a record whose property names are account ids. */
  datatype Json =
    | Null
    | Bool(b: bool)
    | Num(n: real)
    | Str(s: string)
    | Arr(items: seq<Json>)
    | Obj(fields: map<Key, Json>)
    | Table(rows: map<string, Json>)

  /** A record: a property that is undefined is not there. */
  type Fields = map<Key, Json>

  function Get(fields: Fields, key: Key): Option<Json> {
    if key in fields then Some(fields[key]) else None
  }

  /** The property's value, if it is a string. */
  function GetStr(fields: Fields, key: Key): Option<string> {
    if key in fields && fields[key].Str? then Some(fields[key].s) else None
  }

  function GetObj(fields: Fields, key: Key): Fields {
    if key in fields && fields[key].Obj? then fields[key].fields else map[]
  }

  /** What `Number` makes of a value, if that is finite; a number is itself. */
  type Coercion = f: Json -> Option<real> | forall n :: f(Num(n)) == Some(n) witness JustNumbers

  function JustNumbers(v: Json): Option<real> {
    if v.Num? then Some(v.n) else None
  }
}
