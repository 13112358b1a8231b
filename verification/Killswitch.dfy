/**
 The killswitch: per-account floors on the percent of quota left, the Retry-After sent while it
 holds every account back, and the rewrite of older settings into explicit floors.
 */
module Killswitch {
  import opened Options

  // ---------------------------------------------------------------------
  // Settings
  // ---------------------------------------------------------------------

  /** A thresholds record under its current names and the older aliases `5h` and `1w`. */
  datatype Thresholds = Thresholds(
    primary: Option<real>, secondary: Option<real>, fiveHours: Option<real>, oneWeek: Option<real>)

  /** A value under an account's name: a record, or something else that counts as true or as false. */
  datatype Entry = Record(thresholds: Thresholds) | TruthyJunk | FalsyJunk

  datatype KillswitchBlock = KillswitchBlock(
    enabled: Option<bool>,
    main: Option<Thresholds>,
    accounts: Option<map<string, Entry>>,
    defaults: Option<Thresholds>,
    schema: Option<string>)

  datatype CacheKeep = CacheKeep(fields: map<string, string>)

  /** The settings object as far as the rewrite reads it; `killswitch` and the two cache keys hold records. */
  datatype Settings = Settings(
    killswitch: Option<KillswitchBlock>,
    cachekeep: Option<CacheKeep>,
    cacheKeep: Option<CacheKeep>)

  datatype Floors = Floors(primary: real, secondary: real)

  const DEFAULT_KILLSWITCH_THRESHOLDS := Floors(5.0, 10.0)
  const KILLSWITCH_FLOORS_SCHEMA := "floors-v1"
  const MAIN_ROW_ID := "main"
  const PROTOTYPE_KEYS: set<string> := {"__proto__", "constructor", "prototype"}

  /** Names every object has from its prototype, so that reading an account of that name finds something. */
  const INHERITED_KEYS: set<string> := {
    "__defineGetter__", "__defineSetter__", "__lookupGetter__", "__lookupSetter__", "__proto__", "constructor",
    "hasOwnProperty", "isPrototypeOf", "propertyIsEnumerable", "toLocaleString", "toString", "valueOf"}

  const NO_THRESHOLDS := Thresholds(None, None, None, None)

  function FirstOf(a: Option<real>, b: Option<real>, otherwise: real): real {
    if a.Some? then a.value else if b.Some? then b.value else otherwise
  }

  function NormalizeThresholds(t: Option<Thresholds>): Floors {
    var t := if t.Some? then t.value else NO_THRESHOLDS;
    Floors(FirstOf(t.primary, t.fiveHours, DEFAULT_KILLSWITCH_THRESHOLDS.primary),
           FirstOf(t.secondary, t.oneWeek, DEFAULT_KILLSWITCH_THRESHOLDS.secondary))
  }

  function FloorOf(value: Option<real>): real {
    if value.Some? then value.value else 0.0
  }

  predicate IsFloors(block: KillswitchBlock) {
    block.schema == Some(KILLSWITCH_FLOORS_SCHEMA)
  }

  function OwnEntry(block: KillswitchBlock, id: string): Option<Entry> {
    if block.accounts.Some? && id in block.accounts.value then Some(block.accounts.value[id]) else None
  }

  /** What the older reader finds under an id: an entry, or what the object inherits under that name. */
  function FoundEntry(block: KillswitchBlock, id: string, inherited: set<string>): Option<Entry> {
    if OwnEntry(block, id).Some? then OwnEntry(block, id)
    else if block.accounts.Some? && id in inherited then Some(TruthyJunk)
    else None
  }

  /** The floors of an account; no id stands for the main account. */
  function ThresholdsFor(block: Option<KillswitchBlock>, accountId: Option<string>): Floors {
    if block.None? then DEFAULT_KILLSWITCH_THRESHOLDS
    else if IsFloors(block.value) then FloorsFor(block.value, accountId)
    else LegacyFor(block.value, accountId)
  }

  function FloorsFor(block: KillswitchBlock, accountId: Option<string>): Floors {
    var id := if accountId.Some? then accountId.value else MAIN_ROW_ID;
    var entry := OwnEntry(block, id);
    var own := if entry.Some? && entry.value.Record? then Some(entry.value.thresholds) else block.defaults;
    Floors(if own.Some? then FloorOf(own.value.primary) else 0.0,
           if own.Some? then FloorOf(own.value.secondary) else 0.0)
  }

  function LegacyFor(block: KillswitchBlock, accountId: Option<string>): Floors {
    if accountId.Some? && accountId.value != "" && Honoured(FoundEntry(block, accountId.value, INHERITED_KEYS)) then
      NormalizeThresholds(RecordOf(FoundEntry(block, accountId.value, INHERITED_KEYS)))
    else NormalizeThresholds(block.main)
  }

  predicate Honoured(entry: Option<Entry>) {
    entry.Some? && !entry.value.FalsyJunk?
  }

  function RecordOf(entry: Option<Entry>): Option<Thresholds> {
    if entry.Some? && entry.value.Record? then Some(entry.value.thresholds) else None
  }

  // ---------------------------------------------------------------------
  // Rewriting an unmarked block into floors
  // ---------------------------------------------------------------------

  function Explicit(f: Floors): Thresholds {
    Thresholds(Some(f.primary), Some(f.secondary), None, None)
  }

  function RewrittenIds(block: KillswitchBlock, rosterIds: seq<string>): set<string> {
    ListedIds(block, rosterIds) - PROTOTYPE_KEYS
  }

  function ListedIds(block: KillswitchBlock, rosterIds: seq<string>): set<string> {
    {MAIN_ROW_ID} + (set id | id in rosterIds)
    + (if block.accounts.Some? then block.accounts.value.Keys else {})
  }

  function RewrittenEntry(block: KillswitchBlock, id: string): Entry {
    Record(Explicit(ThresholdsFor(Some(block), if id == MAIN_ROW_ID then None else Some(id))))
  }

  function RewrittenEntries(block: KillswitchBlock, ids: set<string>): map<string, Entry> {
    map id | id in ids :: RewrittenEntry(block, id)
  }

  function InFloors(block: KillswitchBlock, rosterIds: seq<string>): KillswitchBlock {
    KillswitchBlock(
      block.enabled,
      None,
      Some(RewrittenEntries(block, RewrittenIds(block, rosterIds))),
      Some(Explicit(ThresholdsFor(Some(block), None))),
      Some(KILLSWITCH_FLOORS_SCHEMA))
  }

  method KillswitchInFloors(block: KillswitchBlock, rosterIds: seq<string>) returns (next: KillswitchBlock)
    ensures next == InFloors(block, rosterIds)
  {
    var named := if block.accounts.Some? then block.accounts.value.Keys else {};
    var ids := {MAIN_ROW_ID} + (set id | id in rosterIds) + named;
    var accounts := FillFloors(block, ids, PROTOTYPE_KEYS);
    var fallback := ThresholdsFor(Some(block), None);
    next := block.(main := None);
    next := next.(accounts := Some(accounts));
    next := next.(defaults := Some(Thresholds(Some(fallback.primary), Some(fallback.secondary), None, None)));
    next := next.(schema := Some(KILLSWITCH_FLOORS_SCHEMA));
  }

  /** Asks the older reader for the floors of every id but the skipped ones. */
  method FillFloors(block: KillswitchBlock, ids: set<string>, skip: set<string>) returns (accounts: map<string, Entry>)
    ensures accounts == RewrittenEntries(block, ids - skip)
  {
    accounts := map[];
    var todo := ids;
    while todo != {}
      invariant todo <= ids
      invariant accounts == RewrittenEntries(block, ids - todo - skip)
      decreases |todo|
    {
      var id :| id in todo;
      todo := todo - {id};
      if id !in skip {
        var floors := ThresholdsFor(Some(block), if id == MAIN_ROW_ID then None else Some(id));
        accounts := accounts[id := Record(Thresholds(Some(floors.primary), Some(floors.secondary), None, None))];
      }
    }
    assert ids - todo - skip == ids - skip;
  }

  /** The floors the rewritten block gives: an own entry for everyone listed, the old main floors for the rest. */
  lemma FloorsOfRewrite(block: KillswitchBlock, rosterIds: seq<string>, accountId: Option<string>)
    ensures var id := if accountId.Some? then accountId.value else MAIN_ROW_ID;
            ThresholdsFor(Some(InFloors(block, rosterIds)), accountId)
              == if id in RewrittenIds(block, rosterIds) && id != MAIN_ROW_ID
                 then ThresholdsFor(Some(block), Some(id))
                 else ThresholdsFor(Some(block), None)
  {
  }

  /**
   The rewrite of an unmarked block, exactly: an account keeps its floors unless the older reader
   found something under its id that the rewrite does not list, or gives to the main account, and
   that says other than the main floors. Any roster will do, so accounts added later are covered too.
   */
  lemma RewriteKeepsFloorsExactlyWhen(block: KillswitchBlock, rosterIds: seq<string>, accountId: Option<string>)
    requires !IsFloors(block)
    ensures ThresholdsFor(Some(InFloors(block, rosterIds)), accountId) == ThresholdsFor(Some(block), accountId)
       <==> || accountId.None? || accountId.value == ""
            || (accountId.value in RewrittenIds(block, rosterIds) && accountId.value != MAIN_ROW_ID)
            || !Honoured(FoundEntry(block, accountId.value, INHERITED_KEYS))
            || NormalizeThresholds(RecordOf(FoundEntry(block, accountId.value, INHERITED_KEYS)))
               == NormalizeThresholds(block.main)
  {
    FloorsOfRewrite(block, rosterIds, accountId);
  }

  /** An unmarked block with thresholds of its own under the main row's name loses them. */
  lemma RewriteDropsAnEntryNamedMain()
    ensures var own := Thresholds(Some(50.0), None, None, None);
            var block := KillswitchBlock(Some(true), None, Some(map[MAIN_ROW_ID := Record(own)]), None, None);
            && ThresholdsFor(Some(block), Some(MAIN_ROW_ID)) == Floors(50.0, 10.0)
            && ThresholdsFor(Some(InFloors(block, [])), Some(MAIN_ROW_ID)) == Floors(5.0, 10.0)
  {
  }

  /** A row named after an inherited name had the default floors, and has the main floors if it is added later. */
  lemma RewriteChangesAnInheritedName()
    ensures var main := Thresholds(Some(50.0), None, None, None);
            var block := KillswitchBlock(Some(true), Some(main), Some(map[]), None, None);
            && ThresholdsFor(Some(block), Some("toString")) == Floors(5.0, 10.0)
            && ThresholdsFor(Some(InFloors(block, [])), Some("toString")) == Floors(50.0, 10.0)
  {
  }

  // ---------------------------------------------------------------------
  // The policy check
  // ---------------------------------------------------------------------

  /** One quota window; `resetsAt` is absent when the source names no readable reset time. */
  datatype Window = Window(remainingPercent: real, resetsAt: Option<int>)
  datatype Quota = Quota(primary: Option<Window>, secondary: Option<Window>)

  datatype Policy = Policy(killswitch: Option<KillswitchBlock>, failClosedOnUnknownQuota: bool)

  /** An account on offer: its id (absent for main) and its quota, if known. */
  datatype Candidate = Candidate(accountId: Option<string>, quota: Option<Quota>)

  predicate IsEnabled(policy: Policy) {
    policy.killswitch.Some? && policy.killswitch.value.enabled == Some(true)
  }

  predicate ResetIsPast(window: Window, now: int) {
    window.resetsAt.Some? && window.resetsAt.value <= now
  }

  /** Whether a window lets its account pass. */
  predicate WindowPasses(window: Option<Window>, floor: real, failClosed: bool, now: int) {
    window.Some? ==>
      if ResetIsPast(window.value, now) then !failClosed else window.value.remainingPercent >= floor
  }

  predicate PassesPolicy(policy: Policy, candidate: Candidate, now: int) {
    if !IsEnabled(policy) then true
    else if candidate.quota.None? then !policy.failClosedOnUnknownQuota
    else
      var floors := ThresholdsFor(policy.killswitch, candidate.accountId);
      && WindowPasses(candidate.quota.value.primary, floors.primary, policy.failClosedOnUnknownQuota, now)
      && WindowPasses(candidate.quota.value.secondary, floors.secondary, policy.failClosedOnUnknownQuota, now)
  }

  /** With the killswitch off, or without one, every account passes. */
  lemma OffHoldsNobodyBack(policy: Policy, candidate: Candidate, now: int)
    requires policy.killswitch.None? || policy.killswitch.value.enabled != Some(true)
    ensures PassesPolicy(policy, candidate, now)
  {
  }

  /** A window whose reset has not come at that moment. */
  predicate Runs(window: Window, now: int) {
    window.resetsAt.None? || window.resetsAt.value > now
  }

  /**
   With the killswitch on, running windows let their account pass exactly when each has at least its floor left.
   A window whose reset has come counts for nothing, or holds its account back if unknown quota fails closed.
   */
  lemma PassesExactlyFromFloors(policy: Policy, accountId: Option<string>, primary: Window, secondary: Window, now: int)
    requires policy.killswitch.Some? && policy.killswitch.value.enabled == Some(true)
    ensures var floors := ThresholdsFor(policy.killswitch, accountId);
            var passes := (p, s) => PassesPolicy(policy, Candidate(accountId, Some(Quota(p, s))), now);
            && (Runs(primary, now) && Runs(secondary, now) ==>
                  (passes(Some(primary), Some(secondary))
                   <==> primary.remainingPercent >= floors.primary && secondary.remainingPercent >= floors.secondary))
            && (!Runs(primary, now) ==>
                  (passes(Some(primary), Some(secondary))
                   <==> !policy.failClosedOnUnknownQuota && passes(None, Some(secondary))))
            && (!Runs(secondary, now) ==>
                  (passes(Some(primary), Some(secondary))
                   <==> !policy.failClosedOnUnknownQuota && passes(Some(primary), None)))
  {
  }

  /**
   With the killswitch on, an account of unknown quota is judged at its worst if unknown quota fails closed: it
   passes only if it would with any quota, and so never gains by not being read. Otherwise it is judged at its
   best: it passes if it would with some quota, and never loses by not being read.
   */
  lemma UnknownQuotaIsWorstOrBest(policy: Policy, accountId: Option<string>, now: int)
    requires policy.killswitch.Some? && policy.killswitch.value.enabled == Some(true)
    ensures PassesPolicy(policy, Candidate(accountId, None), now)
       <==> if policy.failClosedOnUnknownQuota
            then forall quota :: PassesPolicy(policy, Candidate(accountId, Some(quota)), now)
            else exists quota :: PassesPolicy(policy, Candidate(accountId, Some(quota)), now)
    ensures PassesPolicy(policy, Candidate(accountId, None), now) == !policy.failClosedOnUnknownQuota
  {
    var floor := ThresholdsFor(policy.killswitch, accountId).primary;
    assert PassesPolicy(policy.(failClosedOnUnknownQuota := false), Candidate(accountId, Some(Quota(None, None))), now);
    assert !PassesPolicy(policy, Candidate(accountId, Some(Quota(Some(Window(floor - 1.0, None)), None))), now);
  }

  /** Failing closed on unknown quota never lets through an account that was held back. */
  lemma FailingClosedOnlyHoldsBack(policy: Policy, candidate: Candidate, now: int)
    requires PassesPolicy(policy.(failClosedOnUnknownQuota := true), candidate, now)
    ensures PassesPolicy(policy.(failClosedOnUnknownQuota := false), candidate, now)
  {
  }

  /** The thresholds with a floor of zero for each one that is missing under its current name. */
  function OrZero(t: Option<Thresholds>): Thresholds {
    Thresholds(if t.Some? && t.value.primary.Some? then t.value.primary else Some(0.0),
               if t.Some? && t.value.secondary.Some? then t.value.secondary else Some(0.0), None, None)
  }

  /** A marked block with every floor it leaves out put down as zero. */
  function WithZeros(block: KillswitchBlock): KillswitchBlock {
    block.(
      defaults := Some(OrZero(block.defaults)),
      accounts := if block.accounts.None? then None
                  else Some(map id | id in block.accounts.value && block.accounts.value[id].Record? ::
                              Record(OrZero(Some(block.accounts.value[id].thresholds)))))
  }

  /** In a marked block a floor left out is a floor of zero: putting it down changes no verdict. */
  lemma MissingFloorIsZero(policy: Policy, candidate: Candidate, now: int)
    requires policy.killswitch.Some? && policy.killswitch.value.schema == Some("floors-v1")
    ensures PassesPolicy(policy.(killswitch := Some(WithZeros(policy.killswitch.value))), candidate, now)
         == PassesPolicy(policy, candidate, now)
    ensures ThresholdsFor(Some(WithZeros(policy.killswitch.value)), candidate.accountId)
         == ThresholdsFor(policy.killswitch, candidate.accountId)
  {
  }

  /**
   The same quota blocks the same requests before and after the rewrite, at every moment, for every
   account, listed or not, but one that bears the main row's name, a prototype key, or unlisted the name
   of something every object inherits.
   */
  lemma RewriteKeepsVerdicts(policy: Policy, rosterIds: seq<string>, candidate: Candidate, now: int)
    requires policy.killswitch.Some? && !IsFloors(policy.killswitch.value)
    requires candidate.accountId.Some? ==>
               var id := candidate.accountId.value;
               id != MAIN_ROW_ID && id !in PROTOTYPE_KEYS && (id in INHERITED_KEYS ==> id in rosterIds)
    ensures PassesPolicy(policy.(killswitch := Some(InFloors(policy.killswitch.value, rosterIds))), candidate, now)
         == PassesPolicy(policy, candidate, now)
  {
    RewriteKeepsFloorsExactlyWhen(policy.killswitch.value, rosterIds, candidate.accountId);
  }

  // ---------------------------------------------------------------------
  // Migration of legacy settings
  // ---------------------------------------------------------------------

  function MergeCacheKeep(older: CacheKeep, newer: Option<CacheKeep>): CacheKeep {
    CacheKeep(if newer.Some? then older.fields + newer.value.fields else older.fields)
  }

  function Migrated(settings: Settings, rosterIds: seq<string>): Settings {
    Settings(
      if settings.killswitch.Some? && !IsFloors(settings.killswitch.value)
      then Some(InFloors(settings.killswitch.value, rosterIds)) else settings.killswitch,
      None,
      if settings.cachekeep.Some? then Some(MergeCacheKeep(settings.cachekeep.value, settings.cacheKeep))
      else settings.cacheKeep)
  }

  class SettingsObject {
    var killswitch: Option<KillswitchBlock>
    var cachekeep: Option<CacheKeep>
    var cacheKeep: Option<CacheKeep>

    function State(): Settings
      reads this
    {
      Settings(killswitch, cachekeep, cacheKeep)
    }

    method MigrateLegacySettings(rosterIds: seq<string>) returns (changed: bool)
      modifies this
      ensures State() == Migrated(old(State()), rosterIds)
      ensures changed <==> State() != old(State())
    {
      changed := false;
      if cachekeep.Some? {
        cacheKeep := Some(CacheKeep(
          cachekeep.value.fields + (if cacheKeep.Some? then cacheKeep.value.fields else map[])));
        assert cachekeep.value.fields + map[] == cachekeep.value.fields;
        cachekeep := None;
        changed := true;
      }
      if killswitch.Some? && killswitch.value.schema != Some(KILLSWITCH_FLOORS_SCHEMA) {
        var next := KillswitchInFloors(killswitch.value, rosterIds);
        killswitch := Some(next);
        changed := true;
      }
    }
  }

  /** Migrating settles: a second run, with any roster, changes nothing. */
  lemma MigrationIsIdempotent(settings: Settings, rosterIds: seq<string>, laterIds: seq<string>)
    ensures Migrated(Migrated(settings, rosterIds), laterIds) == Migrated(settings, rosterIds)
  {
  }

  /**
   Migrating moves the older cache settings under the newer name and loses none of them: where both have a
   setting the newer one stays. Without older ones the newer stay as they are.
   */
  lemma MigrationKeepsCacheSettings(settings: Settings, rosterIds: seq<string>, name: string)
    ensures var next := Migrated(settings, rosterIds);
            var older := if settings.cachekeep.Some? then settings.cachekeep.value.fields else map[];
            var newer := if settings.cacheKeep.Some? then settings.cacheKeep.value.fields else map[];
            && next.cachekeep.None?
            && (next.cacheKeep.Some? <==> settings.cachekeep.Some? || settings.cacheKeep.Some?)
            && (next.cacheKeep.Some? ==>
                  var fields := next.cacheKeep.value.fields;
                  && (name in fields <==> name in older || name in newer)
                  && (name in newer ==> fields[name] == newer[name])
                  && (name in older && name !in newer ==> fields[name] == older[name]))
  {
  }

  // ---------------------------------------------------------------------
  // Retry-After
  // ---------------------------------------------------------------------

  const DEFAULT_RETRY_AFTER: int := 300

  /** The floor broken by a window still running, if it breaks one. */
  predicate Violates(window: Option<Window>, floor: real, now: int) {
    window.Some? && !ResetIsPast(window.value, now) && window.value.remainingPercent < floor
  }

  /** When the account can pass again: absent if it breaks no floor now or a broken floor's reset is unknown. */
  function AccountReset(policy: Policy, candidate: Candidate, now: int): Option<int> {
    if candidate.quota.None? then None
    else
      var floors := ThresholdsFor(policy.killswitch, candidate.accountId);
      var p, s := candidate.quota.value.primary, candidate.quota.value.secondary;
      LaterOf(if Violates(p, floors.primary, now) then Some(p.value.resetsAt) else None,
              if Violates(s, floors.secondary, now) then Some(s.value.resetsAt) else None)
  }

  /** The later of the resets that must pass, unless none must or one of them is unknown. */
  function LaterOf(a: Option<Option<int>>, b: Option<Option<int>>): Option<int> {
    if a == Some(None) || b == Some(None) then None
    else if a.None? then (if b.None? then None else b.value)
    else if b.None? then a.value
    else Some(if a.value.value >= b.value.value then a.value.value else b.value.value)
  }

  /** The resets of the accounts in order, those without one left out. */
  function Resets(policy: Policy, candidates: seq<Candidate>, now: int): seq<int> {
    if candidates == [] then []
    else
      var n := |candidates| - 1;
      var last := AccountReset(policy, candidates[n], now);
      Resets(policy, candidates[..n], now) + (if last.Some? then [last.value] else [])
  }

  function Least(times: seq<int>): (m: int)
    requires times != []
    ensures m in times && forall t :: t in times ==> m <= t
  {
    var n := |times| - 1;
    assert times == times[..n] + [times[n]];
    if n == 0 then times[0]
    else
      var rest := Least(times[..n]);
      if times[n] < rest then times[n] else rest
  }

  function Ceil1000(ms: int): int {
    (ms + 999) / 1000
  }

  function RetryAfter(policy: Policy, candidates: seq<Candidate>, now: int): int {
    var resets := Resets(policy, candidates, now);
    if !IsEnabled(policy) || resets == [] then DEFAULT_RETRY_AFTER
    else
      var seconds := Ceil1000(Least(resets) - now);
      if seconds < 1 then 1 else seconds
  }

  /** The loop over the accounts, main first, and the two windows of each. */
  method KillswitchRetryAfterSeconds(policy: Policy, mainQuota: Option<Quota>, fallbackAccounts: seq<Candidate>,
                                     now: int)
    returns (seconds: int)
    ensures seconds == RetryAfter(policy, [Candidate(None, mainQuota)] + fallbackAccounts, now)
  {
    if !IsEnabled(policy) { return 300; }
    var accountResetTimes: seq<int> := [];
    var accounts := [Candidate(None, mainQuota)] + fallbackAccounts;
    var i := 0;
    while i < |accounts|
      invariant 0 <= i <= |accounts|
      invariant accountResetTimes == Resets(policy, accounts[..i], now)
    {
      var account := accounts[i];
      assert accounts[..i + 1][..i] == accounts[..i];
      i := i + 1;
      if account.quota.None? { continue; }
      var violating, resetUnknown := ViolatingResets(policy, account, now);
      if resetUnknown || violating == [] { continue; }
      var latest := if |violating| == 2 && violating[1] > violating[0] then violating[1] else violating[0];
      accountResetTimes := accountResetTimes + [latest];
    }
    assert accounts[..|accounts|] == accounts;
    if accountResetTimes == [] { return 300; }
    var earliest := Least(accountResetTimes);
    seconds := (earliest - now + 999) / 1000;
    if seconds < 1 { seconds := 1; }
  }

  function KnownReset(window: Option<Window>, floor: real, now: int): seq<int> {
    if Violates(window, floor, now) && window.value.resetsAt.Some? then [window.value.resetsAt.value] else []
  }

  method ViolatingResets(policy: Policy, account: Candidate, now: int)
    returns (violating: seq<int>, resetUnknown: bool)
    requires account.quota.Some?
    ensures |violating| <= 2
    ensures AccountReset(policy, account, now)
         == if resetUnknown || violating == [] then None
            else if |violating| == 2 && violating[1] > violating[0] then Some(violating[1]) else Some(violating[0])
  {
    var floors := ThresholdsFor(policy.killswitch, account.accountId);
    var windows := [account.quota.value.primary, account.quota.value.secondary];
    var thresholds := [floors.primary, floors.secondary];
    violating, resetUnknown := [], false;
    var k := 0;
    while k < 2
      invariant 0 <= k <= 2 && !resetUnknown
      invariant forall j :: 0 <= j < k && Violates(windows[j], thresholds[j], now) ==> windows[j].value.resetsAt.Some?
      invariant violating == (if k > 0 then KnownReset(windows[0], thresholds[0], now) else [])
                           + (if k > 1 then KnownReset(windows[1], thresholds[1], now) else [])
    {
      var window := windows[k];
      if window.Some? && !ResetIsPast(window.value, now) && window.value.remainingPercent < thresholds[k] {
        if window.value.resetsAt.None? || window.value.resetsAt.value <= now {
          resetUnknown := true;
          break;
        }
        violating := violating + [window.value.resetsAt.value];
      }
      k := k + 1;
    }
  }

  predicate AnyPasses(policy: Policy, candidates: seq<Candidate>, at: int) {
    exists i :: 0 <= i < |candidates| && PassesPolicy(policy, candidates[i], at)
  }

  /** Some account whose quota is known passes. */
  predicate AnyKnownPasses(policy: Policy, candidates: seq<Candidate>, at: int) {
    exists i :: 0 <= i < |candidates| && candidates[i].quota.Some? && PassesPolicy(policy, candidates[i], at)
  }

  /** An account that fails now passes later exactly from its reset on; with no reset, never. */
  lemma PassesExactlyFromReset(policy: Policy, candidate: Candidate, now: int, at: int)
    requires IsEnabled(policy) && !policy.failClosedOnUnknownQuota && now <= at
    requires !PassesPolicy(policy, candidate, now)
    ensures PassesPolicy(policy, candidate, at)
       <==> AccountReset(policy, candidate, now).Some? && AccountReset(policy, candidate, now).value <= at
    ensures AccountReset(policy, candidate, now).Some? ==> AccountReset(policy, candidate, now).value > now
  {
  }

  lemma {:induction false} ResetsOfSome(policy: Policy, candidates: seq<Candidate>, now: int)
    ensures forall i :: 0 <= i < |candidates| && AccountReset(policy, candidates[i], now).Some?
              ==> AccountReset(policy, candidates[i], now).value in Resets(policy, candidates, now)
    ensures forall t :: t in Resets(policy, candidates, now) ==>
              exists i :: 0 <= i < |candidates| && AccountReset(policy, candidates[i], now) == Some(t)
  {
    if candidates != [] {
      var n := |candidates| - 1;
      var front := candidates[..n];
      ResetsOfSome(policy, front, now);
      forall t | t in Resets(policy, front, now)
        ensures exists i :: 0 <= i < |candidates| && AccountReset(policy, candidates[i], now) == Some(t)
      {
        var i :| 0 <= i < n && AccountReset(policy, front[i], now) == Some(t);
        assert candidates[i] == front[i];
      }
      forall i | 0 <= i < n && AccountReset(policy, candidates[i], now).Some?
        ensures AccountReset(policy, candidates[i], now).value in Resets(policy, front, now)
      {
        assert candidates[i] == front[i];
      }
    }
  }

  /** A reset exists only for an account that fails now, so waiting for it makes that account pass. */
  lemma ResetMeansFailing(policy: Policy, candidate: Candidate, now: int)
    requires IsEnabled(policy) && AccountReset(policy, candidate, now).Some?
    ensures !PassesPolicy(policy, candidate, now)
  {
  }

  /**
   Unless the answer is the 300 of no known reset, waiting that many seconds is enough: some listed
   account then passes, whatever the others do.
   */
  lemma RetryAfterIsEnough(policy: Policy, candidates: seq<Candidate>, now: int)
    requires IsEnabled(policy) && !policy.failClosedOnUnknownQuota
    requires Resets(policy, candidates, now) != []
    ensures AnyPasses(policy, candidates, now + 1000 * RetryAfter(policy, candidates, now))
  {
    ResetsOfSome(policy, candidates, now);
    var m := Least(Resets(policy, candidates, now));
    var i :| 0 <= i < |candidates| && AccountReset(policy, candidates[i], now) == Some(m);
    ResetMeansFailing(policy, candidates[i], now);
    PassesExactlyFromReset(policy, candidates[i], now, now + 1000 * RetryAfter(policy, candidates, now));
  }

  /**
   When every account whose quota is known fails now, the answer is exact: the least whole number of
   seconds after which one of them passes, or 300 when none ever will.
   */
  lemma RetryAfterIsExact(policy: Policy, candidates: seq<Candidate>, now: int)
    requires IsEnabled(policy) && !policy.failClosedOnUnknownQuota
    requires !AnyKnownPasses(policy, candidates, now)
    ensures var r := RetryAfter(policy, candidates, now);
            if exists at :: at >= now && AnyKnownPasses(policy, candidates, at)
            then r >= 1 && AnyKnownPasses(policy, candidates, now + 1000 * r)
                 && forall s :: 0 <= s < r ==> !AnyKnownPasses(policy, candidates, now + 1000 * s)
            else r == 300
    ensures Resets(policy, candidates, now) == []
       <==> !exists at :: at >= now && AnyKnownPasses(policy, candidates, at)
  {
    var resets := Resets(policy, candidates, now);
    forall at | at >= now
      ensures AnyKnownPasses(policy, candidates, at) <==> resets != [] && Least(resets) <= at
    {
      PassesFromLeastReset(policy, candidates, now, at);
    }
    if resets != [] {
      var m := Least(resets);
      var r := RetryAfter(policy, candidates, now);
      PassesFromLeastReset(policy, candidates, now, m);
      LeastIsLater(policy, candidates, now);
      assert now + 1000 * r >= m && now + 1000 * (r - 1) < m;
    }
  }

  lemma LeastIsLater(policy: Policy, candidates: seq<Candidate>, now: int)
    requires IsEnabled(policy) && Resets(policy, candidates, now) != []
    ensures Least(Resets(policy, candidates, now)) > now
  {
    ResetsOfSome(policy, candidates, now);
    var m := Least(Resets(policy, candidates, now));
    var i :| 0 <= i < |candidates| && AccountReset(policy, candidates[i], now) == Some(m);
  }

  lemma PassesFromLeastReset(policy: Policy, candidates: seq<Candidate>, now: int, at: int)
    requires IsEnabled(policy) && !policy.failClosedOnUnknownQuota && now <= at
    requires !AnyKnownPasses(policy, candidates, now)
    ensures AnyKnownPasses(policy, candidates, at)
       <==> Resets(policy, candidates, now) != [] && Least(Resets(policy, candidates, now)) <= at
  {
    ResetsOfSome(policy, candidates, now);
    forall i | 0 <= i < |candidates| && candidates[i].quota.Some?
      ensures PassesPolicy(policy, candidates[i], at)
         <==> AccountReset(policy, candidates[i], now).Some? && AccountReset(policy, candidates[i], now).value <= at
    {
      PassesExactlyFromReset(policy, candidates[i], now, at);
    }
    forall i | 0 <= i < |candidates| && AccountReset(policy, candidates[i], now).Some?
      ensures candidates[i].quota.Some?
    {
    }
  }

  /** With unknown quota failing closed, an account that fails now fails at every later moment. */
  lemma FailClosedNeverRecovers(policy: Policy, candidate: Candidate, now: int, at: int)
    requires policy.failClosedOnUnknownQuota && now <= at
    requires !PassesPolicy(policy, candidate, now)
    ensures !PassesPolicy(policy, candidate, at)
  {
  }

  /**
   So for accounts of known quota that all fail now, the announced wait is followed by one that passes
   exactly when unknown quota does not fail closed and some account's broken floors all have known resets.
   */
  lemma RetryAfterIsKeptExactlyWhen(policy: Policy, candidates: seq<Candidate>, now: int)
    requires IsEnabled(policy) && !AnyKnownPasses(policy, candidates, now)
    ensures AnyKnownPasses(policy, candidates, now + 1000 * RetryAfter(policy, candidates, now))
       <==> !policy.failClosedOnUnknownQuota
            && exists i :: 0 <= i < |candidates| && AccountReset(policy, candidates[i], now).Some?
  {
    ResetsOfSome(policy, candidates, now);
    var later := now + 1000 * RetryAfter(policy, candidates, now);
    if policy.failClosedOnUnknownQuota {
      if Resets(policy, candidates, now) != [] { LeastIsLater(policy, candidates, now); }
      forall i | 0 <= i < |candidates| && candidates[i].quota.Some?
        ensures !PassesPolicy(policy, candidates[i], later)
      {
        FailClosedNeverRecovers(policy, candidates[i], now, later);
      }
    } else {
      if Resets(policy, candidates, now) != [] { LeastIsLater(policy, candidates, now); }
      PassesFromLeastReset(policy, candidates, now, later);
    }
  }

  /** An empty main window that resets in a minute: the answer is 60 seconds, and main still fails then. */
  lemma FailClosedBreaksTheAnnouncement()
    ensures var policy := Policy(Some(KillswitchBlock(Some(true), None, None, None, None)), true);
            var main := Candidate(None, Some(Quota(Some(Window(0.0, Some(60_000))), None)));
            RetryAfter(policy, [main], 0) == 60 && !AnyPasses(policy, [main], 60_000)
  {
    var policy := Policy(Some(KillswitchBlock(Some(true), None, None, None, None)), true);
    var main := Candidate(None, Some(Quota(Some(Window(0.0, Some(60_000))), None)));
    assert AccountReset(policy, main, 0) == Some(60_000);
    assert [main][..0] == [];
    assert Resets(policy, [main], 0) == [60_000];
  }

  // ---------------------------------------------------------------------
  // New blocks
  // ---------------------------------------------------------------------

  function WithDefaultFloors(block: KillswitchBlock, rosterIds: seq<string>): KillswitchBlock {
    var named := if block.accounts.Some? then block.accounts.value else map[];
    var missing := {MAIN_ROW_ID} + (set id | id in rosterIds) - PROTOTYPE_KEYS - named.Keys;
    block.(
      accounts := Some(named + map id | id in missing :: Record(Explicit(DEFAULT_KILLSWITCH_THRESHOLDS))),
      defaults := if block.defaults.Some? then block.defaults else Some(Explicit(DEFAULT_KILLSWITCH_THRESHOLDS)),
      schema := Some(KILLSWITCH_FLOORS_SCHEMA))
  }

  method KillswitchWithDefaultFloors(block: KillswitchBlock, rosterIds: seq<string>) returns (next: KillswitchBlock)
    ensures next == WithDefaultFloors(block, rosterIds)
  {
    var listed := {MAIN_ROW_ID} + set id | id in rosterIds;
    var named := if block.accounts.Some? then block.accounts.value else map[];
    var accounts := AddDefaults(named, listed, PROTOTYPE_KEYS);
    var defaults := if block.defaults.Some? then block.defaults.value else Explicit(DEFAULT_KILLSWITCH_THRESHOLDS);
    next := block.(accounts := Some(accounts), defaults := Some(defaults), schema := Some(KILLSWITCH_FLOORS_SCHEMA));
  }

  /** Writes the default floors for every id listed that has no entry, but for the skipped ones. */
  method AddDefaults(named: map<string, Entry>, listed: set<string>, skip: set<string>)
    returns (accounts: map<string, Entry>)
    ensures accounts == named + map id | id in listed - skip - named.Keys ::
                          Record(Explicit(DEFAULT_KILLSWITCH_THRESHOLDS))
  {
    accounts := named;
    var todo := listed;
    while todo != {}
      invariant todo <= listed
      invariant accounts == named + map id | id in listed - todo - skip - named.Keys ::
                              Record(Explicit(DEFAULT_KILLSWITCH_THRESHOLDS))
      decreases |todo|
    {
      var id :| id in todo;
      todo := todo - {id};
      if id in skip || id in named { continue; }
      accounts := accounts[id := Record(Explicit(DEFAULT_KILLSWITCH_THRESHOLDS))];
    }
    assert listed - {} == listed;
  }

  /**
   In a new block a floor the block holds is kept, everyone listed gets the default floors, and
   anyone else gets the block's defaults, the default floors when it has none.
   */
  lemma FloorsOfNewBlock(block: KillswitchBlock, rosterIds: seq<string>, id: string)
    requires id !in PROTOTYPE_KEYS
    ensures ThresholdsFor(Some(WithDefaultFloors(block, rosterIds)), Some(id))
         == if RecordOf(OwnEntry(block, id)).Some? then
              Floors(FloorOf(RecordOf(OwnEntry(block, id)).value.primary),
                     FloorOf(RecordOf(OwnEntry(block, id)).value.secondary))
            else if OwnEntry(block, id).None? && (id == MAIN_ROW_ID || id in rosterIds) then
              DEFAULT_KILLSWITCH_THRESHOLDS
            else if block.defaults.Some? then
              Floors(FloorOf(block.defaults.value.primary), FloorOf(block.defaults.value.secondary))
            else DEFAULT_KILLSWITCH_THRESHOLDS
  {
  }
}
