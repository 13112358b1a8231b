/**
 Normalising what is read from the account files: quota snapshots, operation errors, the reset state
 and the settings of the store. Each normaliser keeps what it understands and leaves out the rest.
 */
module Normalization {
  import opened Options
  import opened Json
  import opened ResetCredits

  /** The value as a number, or nothing. */
  function Number(v: Json, number: Coercion): Option<Json> {
    if number(v).Some? then Some(Num(number(v).value)) else None
  }

  function OnlyNum(v: Json): Option<Json> {
    if v.Num? then Some(v) else None
  }

  function OnlyStr(v: Json): Option<Json> {
    if v.Str? then Some(v) else None
  }

  function OnlyBool(v: Json): Option<Json> {
    if v.Bool? then Some(v) else None
  }

  function OnlyObj(v: Json): Option<Json> {
    if v.Obj? then Some(v) else None
  }

  function OnlyOver(v: Json, bound: real, strict: bool): Option<Json> {
    if v.Num? && (v.n > bound || (!strict && v.n == bound)) then Some(v) else None
  }

  // ---------------------------------------------------------------------
  // Records
  // ---------------------------------------------------------------------

  /** The kinds of record that are normalised field by field. */
  datatype Shape =
    | WindowShape | SpendControlShape | CreditsShape | QuotaShape | ErrorShape
    | OutcomeShape | LastOutcomeShape | ResetShape

  /** How deep records of the shape nest. */
  function Depth(shape: Shape): nat {
    match shape
    case QuotaShape => 1
    case LastOutcomeShape => 1
    case ResetShape => 2
    case _ => 0
  }

  /** What a record of the shape keeps of a field, which is nothing for a field it does not have. */
  function Field(shape: Shape, key: Key, v: Json, number: Coercion): Option<Json>
    decreases Depth(shape), 0
  {
    match shape
    case WindowShape =>
      if key.UsedPercent? || key.RemainingPercent? || key.CheckedAt? then Number(v, number)
      else if key.ResetsAt? then OnlyStr(v)
      else if key.WindowMinutes? then OnlyOver(v, 0.0, true)
      else None
    case SpendControlShape =>
      if key.Limit? || key.Used? || key.Remaining? || key.UsedPercent? || key.RemainingPercent? then Number(v, number)
      else if key.ResetsAt? || key.Unit? || key.Source? then OnlyStr(v)
      else if key.Reached? then OnlyBool(v)
      else None
    case CreditsShape =>
      if key.HasCredits? || key.Unlimited? || key.OverageLimitReached? then OnlyBool(v)
      else if key.Balance? then Number(v, number)
      else if key.CheckedAt? then OnlyNum(v)
      else None
    case QuotaShape =>
      if key.Primary? || key.Secondary? then Normal(WindowShape, v, number)
      else if key.ResetCreditsAvailable? || key.ResetCreditsApplicable? then OnlyOver(v, 0.0, false)
      else if key.SpendControl? then Normal(SpendControlShape, v, number)
      else if key.Credits? then Normal(CreditsShape, v, number)
      else None
    case ErrorShape =>
      if key.Message? || key.TokenHash? then OnlyStr(v)
      else if key.CheckedAt? || key.NextRetryAt? || key.RetryCount? then Number(v, number)
      else None
    case OutcomeShape =>
      if key.Code? then (if v.Str? && v.s != "" then Some(v) else None)
      else if key.At? then OnlyNum(v)
      else None
    case LastOutcomeShape =>
      if key.Code? then (if v.Str? && v.s != "" then Some(v) else None)
      else if key.At? then OnlyNum(v)
      else if key.PreviousOutcome? then Normal(OutcomeShape, v, number)
      else None
    case ResetShape =>
      if key.InFlight? then OnlyObj(v)
      else if key.LastOutcome? then Normal(LastOutcomeShape, v, number)
      else if key.CooldownUntil? then OnlyNum(v)
      else None
  }

  /** The record counts only if these fields of it are kept. */
  function Required(shape: Shape): set<Key> {
    match shape
    case WindowShape => {UsedPercent, RemainingPercent, CheckedAt}
    case SpendControlShape => {Limit, Used, Remaining, UsedPercent, RemainingPercent, Reached}
    case CreditsShape => {HasCredits, Unlimited}
    case QuotaShape => {}
    case ErrorShape => {Message, CheckedAt}
    case OutcomeShape => {Code, At}
    case LastOutcomeShape => {Code, At}
    case ResetShape => {}
  }

  /** A field that must be of the right kind if it is there, or the record does not count. */
  predicate Spoils(shape: Shape, key: Key) {
    shape.CreditsShape? && key.OverageLimitReached?
  }

  /** A record that counts only if anything of it is kept. */
  predicate NeedsSome(shape: Shape) {
    shape.QuotaShape? || shape.ResetShape?
  }

  function Kept(shape: Shape, fields: Fields, number: Coercion): Fields
    decreases Depth(shape), 1
  {
    map key | key in fields && Field(shape, key, fields[key], number).Some? ::
      Field(shape, key, fields[key], number).value
  }

  /** The record as normalised, if it counts. */
  function Normal(shape: Shape, v: Json, number: Coercion): Option<Json>
    decreases Depth(shape), 2
  {
    if !v.Obj? then None
    else
      var kept := Kept(shape, v.fields, number);
      if !(Required(shape) <= kept.Keys) then None
      else if exists key :: key in v.fields && Spoils(shape, key) && key !in kept then None
      else if NeedsSome(shape) && kept == map[] then None
      else Some(Obj(kept))
  }

  /** Normalising a record that was normalised gives it back, whatever its shape. */
  lemma {:induction false} NormalAgain(shape: Shape, v: Json, number: Coercion)
    requires Normal(shape, v, number).Some?
    ensures Normal(shape, Normal(shape, v, number).value, number) == Normal(shape, v, number)
    decreases Depth(shape), 1
  {
    hide Field;
    var kept := Kept(shape, v.fields, number);
    forall key | key in kept
      ensures Field(shape, key, kept[key], number) == Some(kept[key])
    {
      FieldAgain(shape, key, v.fields[key], number);
    }
    assert Kept(shape, kept, number) == kept;
  }

  lemma {:induction false} FieldAgain(shape: Shape, key: Key, v: Json, number: Coercion)
    requires Field(shape, key, v, number).Some?
    ensures var kept := Field(shape, key, v, number).value; Field(shape, key, kept, number) == Some(kept)
    decreases Depth(shape), 0
  {
    match shape
    case QuotaShape =>
      if key.Primary? || key.Secondary? { NormalAgain(WindowShape, v, number); }
      else if key.SpendControl? { NormalAgain(SpendControlShape, v, number); }
      else if key.Credits? { NormalAgain(CreditsShape, v, number); }
    case LastOutcomeShape => if key.PreviousOutcome? { NormalAgain(OutcomeShape, v, number); }
    case ResetShape => if key.LastOutcome? { NormalAgain(LastOutcomeShape, v, number); }
    case _ =>
  }

  // ---------------------------------------------------------------------
  // Settings of the store
  // ---------------------------------------------------------------------

  function Integers(items: seq<Json>): seq<Json> {
    if items == [] then []
    else
      var front, last := Integers(items[..|items| - 1]), items[|items| - 1];
      if last.Num? && last.n.Floor as real == last.n then front + [last] else front
  }

  function ResetRows(rows: map<string, Json>, number: Coercion): map<string, Json> {
    map id | id in rows && IsSafeResetAccountKey(id) && Normal(ResetShape, rows[id], number).Some? ::
      Normal(ResetShape, rows[id], number).value
  }

  /** The reset state of every account under a safe name that has any. */
  function NormalReset(v: Json, number: Coercion): Option<Json> {
    if !v.Table? || ResetRows(v.rows, number) == map[] then None else Some(Table(ResetRows(v.rows, number)))
  }

  /** What is kept of a setting at the top of the config file. */
  function Setting(key: Key, v: Json, number: Coercion): Option<Json> {
    if key.FallbackOn? then (if v.Arr? then Some(Arr(Integers(v.items))) else None)
    else if key.Reset? then NormalReset(v, number)
    else if key.MainAccountId? then OnlyStr(v)
    else if IsRecordSetting(key) then OnlyObj(v)
    else None
  }

  predicate IsRecordSetting(key: Key) {
    key.Routing? || key.Refresh? || key.Quota? || key.Dump? || key.CostZeroing? || key.Killswitch? || key.Logging?
    || key.Cachekeep? || key.CacheKeep?
  }

  lemma {:induction false} IntegersAgain(items: seq<Json>)
    ensures Integers(Integers(items)) == Integers(items)
    decreases |items|
  {
    if items != [] {
      var front, last := items[..|items| - 1], items[|items| - 1];
      IntegersAgain(front);
      if last.Num? && last.n.Floor as real == last.n {
        assert (Integers(front) + [last])[..|Integers(front)|] == Integers(front);
      }
    }
  }

  lemma ResetAgain(rows: map<string, Json>, number: Coercion)
    ensures ResetRows(ResetRows(rows, number), number) == ResetRows(rows, number)
  {
    hide Normal;
    hide IsSafeResetAccountKey;
    var once := ResetRows(rows, number);
    forall id | id in once ensures Normal(ResetShape, once[id], number) == Some(once[id]) {
      NormalAgain(ResetShape, rows[id], number);
    }
    assert ResetRows(once, number).Keys == once.Keys;
  }

  /** A setting kept once is kept as it is. */
  lemma SettingAgain(key: Key, v: Json, number: Coercion)
    requires Setting(key, v, number).Some?
    ensures Setting(key, Setting(key, v, number).value, number) == Setting(key, v, number)
  {
    hide ResetRows;
    hide Integers;
    if key.FallbackOn? { IntegersAgain(v.items); }
    if key.Reset? { ResetAgain(v.rows, number); }
  }
}
