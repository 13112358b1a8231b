/**
 The stored records by their declared types, told as tables of fields, and what loading keeps of a record:
 every known field that is well typed as it was, and nothing else but numbers that were written as text.
 */
module StoredTypes {
  import opened Options
  import opened Text
  import opened Json
  import opened Normalization
  import ResetCredits
  import opened AccountRoster

  datatype Record =
    | WindowRecord | SpendControlRecord | CreditsRecord | SnapshotRecord | ErrorRecord | OutcomeRecord
    | LastOutcomeRecord | ResetRecord

  /** What a field holds; an amount is also read from a value that `Number` makes one of. */
  datatype Kind =
    | Amount | JustNumber | Positive | NotNegative | AString | NonEmpty | Flag | AnyRecord | A(record: Record)

  function Nesting(record: Record): nat {
    match record
    case SnapshotRecord => 1
    case LastOutcomeRecord => 1
    case ResetRecord => 2
    case _ => 0
  }

  /** What the record's type says of a field; nothing of a field it does not have. */
  function KindOf(record: Record, key: Key): (kind: Option<Kind>)
    ensures kind.Some? && kind.value.A? ==> Nesting(kind.value.record) < Nesting(record)
  {
    match record
    case WindowRecord =>
      if key in {UsedPercent, RemainingPercent, CheckedAt} then Some(Amount)
      else if key == ResetsAt then Some(AString)
      else if key == WindowMinutes then Some(Positive)
      else None
    case SpendControlRecord =>
      if key in {Limit, Used, Remaining, UsedPercent, RemainingPercent} then Some(Amount)
      else if key in {ResetsAt, Unit, Source} then Some(AString)
      else if key == Reached then Some(Flag)
      else None
    case CreditsRecord =>
      if key in {HasCredits, Unlimited, OverageLimitReached} then Some(Flag)
      else if key == Balance then Some(Amount)
      else if key == CheckedAt then Some(JustNumber)
      else None
    case SnapshotRecord =>
      if key in {Primary, Secondary} then Some(A(WindowRecord))
      else if key in {ResetCreditsAvailable, ResetCreditsApplicable} then Some(NotNegative)
      else if key == SpendControl then Some(A(SpendControlRecord))
      else if key == Credits then Some(A(CreditsRecord))
      else None
    case ErrorRecord =>
      if key in {Message, TokenHash} then Some(AString)
      else if key in {CheckedAt, NextRetryAt, RetryCount} then Some(Amount)
      else None
    case OutcomeRecord =>
      if key == Code then Some(NonEmpty) else if key == At then Some(JustNumber) else None
    case LastOutcomeRecord =>
      if key == Code then Some(NonEmpty)
      else if key == At then Some(JustNumber)
      else if key == PreviousOutcome then Some(A(OutcomeRecord))
      else None
    case ResetRecord =>
      if key == InFlight then Some(AnyRecord)
      else if key == LastOutcome then Some(A(LastOutcomeRecord))
      else if key == CooldownUntil then Some(JustNumber)
      else None
  }

  /** The fields a record cannot do without. */
  function Needed(record: Record): set<Key> {
    match record
    case WindowRecord => {UsedPercent, RemainingPercent, CheckedAt}
    case SpendControlRecord => {Limit, Used, Remaining, UsedPercent, RemainingPercent, Reached}
    case CreditsRecord => {HasCredits, Unlimited}
    case ErrorRecord => {Message, CheckedAt}
    case OutcomeRecord => {Code, At}
    case LastOutcomeRecord => {Code, At}
    case _ => {}
  }

  /** A field without which the record may do, but which must be well typed if it is there. */
  predicate MustFit(record: Record, key: Key) {
    record.CreditsRecord? && key == OverageLimitReached
  }

  function ShapeOf(record: Record): Shape {
    match record
    case WindowRecord => WindowShape
    case SpendControlRecord => SpendControlShape
    case CreditsRecord => CreditsShape
    case SnapshotRecord => QuotaShape
    case ErrorRecord => ErrorShape
    case OutcomeRecord => OutcomeShape
    case LastOutcomeRecord => LastOutcomeShape
    case ResetRecord => ResetShape
  }

  // ---------------------------------------------------------------------
  // Typing
  // ---------------------------------------------------------------------

  predicate Fits(kind: Kind, v: Json)
    decreases if kind.A? then Nesting(kind.record) else 0, if kind.A? then 2 else 0
  {
    match kind
    case Amount => v.Num?
    case JustNumber => v.Num?
    case Positive => v.Num? && v.n > 0.0
    case NotNegative => v.Num? && v.n >= 0.0
    case AString => v.Str?
    case NonEmpty => v.Str? && v.s != ""
    case Flag => v.Bool?
    case AnyRecord => v.Obj?
    case A(record) => Typed(record, v)
  }

  /** A record with all it needs whose known fields are all well typed; one that needs nothing has some of them. */
  predicate Typed(record: Record, v: Json)
    decreases Nesting(record), 1
  {
    && v.Obj? && Needed(record) <= v.fields.Keys
    && (forall key :: KindOf(record, key).Some? && key in v.fields ==> Fits(KindOf(record, key).value, v.fields[key]))
    && (Needed(record) == {} ==> exists key :: KindOf(record, key).Some? && key in v.fields)
  }

  function CleanedField(kind: Kind, v: Json): Json
    decreases if kind.A? then Nesting(kind.record) else 0, if kind.A? then 2 else 0
  {
    if kind.A? then Cleaned(kind.record, v) else v
  }

  /** The record without the fields its type does not have. */
  function Cleaned(record: Record, v: Json): Json
    decreases Nesting(record), 1
  {
    if !v.Obj? then v
    else Obj(map key | key in v.fields && KindOf(record, key).Some? ::
               CleanedField(KindOf(record, key).value, v.fields[key]))
  }

  predicate SoundField(kind: Kind, v: Json)
    decreases if kind.A? then Nesting(kind.record) else 0, if kind.A? then 2 else 0
  {
    if kind.A? then Sound(kind.record, v) else Fits(kind, v)
  }

  /** A record that counts although fields it does not need are ill typed. */
  predicate Sound(record: Record, v: Json)
    decreases Nesting(record), 1
  {
    && v.Obj? && Needed(record) <= v.fields.Keys
    && (forall key :: key in v.fields && KindOf(record, key).Some? && (key in Needed(record) || MustFit(record, key))
          ==> SoundField(KindOf(record, key).value, v.fields[key]))
    && (Needed(record) == {} ==>
          exists key :: key in v.fields && KindOf(record, key).Some?
                        && SoundField(KindOf(record, key).value, v.fields[key]))
  }

  /** What is kept of a field: a well-typed value as it was, and of a record that counts its own such fields. */
  ghost predicate FieldRetained(kind: Kind, v: Json, kept: Option<Json>)
    decreases if kind.A? then Nesting(kind.record) else 0, if kind.A? then 2 else 0
  {
    SoundField(kind, v) ==> kept.Some? && if kind.A? then Retained(kind.record, v, kept.value) else kept.value == v
  }

  ghost predicate Retained(record: Record, v: Json, kept: Json)
    decreases Nesting(record), 1
  {
    && v.Obj? && kept.Obj?
    && forall key :: KindOf(record, key).Some? && key in v.fields ==>
         FieldRetained(KindOf(record, key).value, v.fields[key], Get(kept.fields, key))
  }

  // ---------------------------------------------------------------------
  // Normalising by the tables
  // ---------------------------------------------------------------------

  /** What normalising keeps of one field, by the tables. */
  ghost predicate ByTable(record: Record, key: Key, v: Json, number: Coercion) {
    var field := Field(ShapeOf(record), key, v, number);
    if KindOf(record, key).None? then field.None?
    else
      var kind := KindOf(record, key).value;
      if kind.A? then field == Normal(ShapeOf(kind.record), v, number)
      else if kind.Amount? then field == Number(v, number)
      else field == if Fits(kind, v) then Some(v) else None
  }

  lemma FieldByTable(record: Record, key: Key, v: Json, number: Coercion)
    ensures ByTable(record, key, v, number)
  {
    hide Normal;
    match record
    case WindowRecord => WindowByTable(key, v, number);
    case SpendControlRecord => SpendControlByTable(key, v, number);
    case CreditsRecord => CreditsByTable(key, v, number);
    case SnapshotRecord => SnapshotByTable(key, v, number);
    case ErrorRecord => ErrorByTable(key, v, number);
    case OutcomeRecord => OutcomeByTable(key, v, number);
    case LastOutcomeRecord => LastOutcomeByTable(key, v, number);
    case ResetRecord => ResetByTable(key, v, number);
  }

  lemma PlainFits(v: Json)
    ensures Fits(Amount, v) == v.Num? && Fits(JustNumber, v) == v.Num? && Fits(AString, v) == v.Str?
    ensures Fits(Positive, v) == (v.Num? && v.n > 0.0) && Fits(NotNegative, v) == (v.Num? && v.n >= 0.0)
    ensures Fits(NonEmpty, v) == (v.Str? && v.s != "") && Fits(Flag, v) == v.Bool? && Fits(AnyRecord, v) == v.Obj?
  {
  }

  lemma WindowKindOf(key: Key)
    ensures KindOf(WindowRecord, key)
         == if key.UsedPercent? || key.RemainingPercent? || key.CheckedAt? then Some(Amount)
            else if key.ResetsAt? then Some(AString)
            else if key.WindowMinutes? then Some(Positive) else None
  {
  }

  lemma WindowByTable(key: Key, v: Json, number: Coercion)
    ensures ByTable(WindowRecord, key, v, number)
  {
    hide Normal;
    hide Typed;
    WindowKindOf(key);
    hide KindOf;
    PlainFits(v);
    hide Fits;
  }

  lemma SpendControlKindOf(key: Key)
    ensures KindOf(SpendControlRecord, key)
         == if key.Limit? || key.Used? || key.Remaining? || key.UsedPercent? || key.RemainingPercent? then Some(Amount)
            else if key.ResetsAt? || key.Unit? || key.Source? then Some(AString)
            else if key.Reached? then Some(Flag) else None
  {
  }

  lemma SpendControlByTable(key: Key, v: Json, number: Coercion)
    ensures ByTable(SpendControlRecord, key, v, number)
  {
    hide Normal;
    hide Typed;
    SpendControlKindOf(key);
    hide KindOf;
    PlainFits(v);
    hide Fits;
  }

  lemma CreditsKindOf(key: Key)
    ensures KindOf(CreditsRecord, key)
         == if key.HasCredits? || key.Unlimited? || key.OverageLimitReached? then Some(Flag)
            else if key.Balance? then Some(Amount)
            else if key.CheckedAt? then Some(JustNumber) else None
  {
  }

  lemma CreditsByTable(key: Key, v: Json, number: Coercion)
    ensures ByTable(CreditsRecord, key, v, number)
  {
    hide Normal;
    hide Typed;
    CreditsKindOf(key);
    hide KindOf;
    PlainFits(v);
    hide Fits;
  }

  lemma SnapshotKindOf(key: Key)
    ensures KindOf(SnapshotRecord, key)
         == if key.Primary? || key.Secondary? then Some(A(WindowRecord))
            else if key.ResetCreditsAvailable? || key.ResetCreditsApplicable? then Some(NotNegative)
            else if key.SpendControl? then Some(A(SpendControlRecord))
            else if key.Credits? then Some(A(CreditsRecord)) else None
  {
  }

  lemma SnapshotByTable(key: Key, v: Json, number: Coercion)
    ensures ByTable(SnapshotRecord, key, v, number)
  {
    hide Normal;
    hide Typed;
    SnapshotKindOf(key);
    hide KindOf;
    PlainFits(v);
    hide Fits;
  }

  lemma ErrorKindOf(key: Key)
    ensures KindOf(ErrorRecord, key)
         == if key.Message? || key.TokenHash? then Some(AString)
            else if key.CheckedAt? || key.NextRetryAt? || key.RetryCount? then Some(Amount) else None
  {
  }

  lemma ErrorByTable(key: Key, v: Json, number: Coercion)
    ensures ByTable(ErrorRecord, key, v, number)
  {
    hide Normal;
    hide Typed;
    ErrorKindOf(key);
    hide KindOf;
    PlainFits(v);
    hide Fits;
  }

  lemma OutcomeByTable(key: Key, v: Json, number: Coercion)
    ensures ByTable(OutcomeRecord, key, v, number)
  {
    hide Normal;
    hide Typed;
    PlainFits(v);
    hide Fits;
  }

  lemma LastOutcomeKindOf(key: Key)
    ensures KindOf(LastOutcomeRecord, key)
         == if key.Code? then Some(NonEmpty)
            else if key.At? then Some(JustNumber)
            else if key.PreviousOutcome? then Some(A(OutcomeRecord)) else None
  {
  }

  lemma LastOutcomeByTable(key: Key, v: Json, number: Coercion)
    ensures ByTable(LastOutcomeRecord, key, v, number)
  {
    hide Normal;
    hide Typed;
    LastOutcomeKindOf(key);
    hide KindOf;
    PlainFits(v);
    hide Fits;
  }

  lemma ResetKindOf(key: Key)
    ensures KindOf(ResetRecord, key)
         == if key.InFlight? then Some(AnyRecord)
            else if key.LastOutcome? then Some(A(LastOutcomeRecord))
            else if key.CooldownUntil? then Some(JustNumber) else None
  {
  }

  lemma ResetByTable(key: Key, v: Json, number: Coercion)
    ensures ByTable(ResetRecord, key, v, number)
  {
    hide Normal;
    hide Typed;
    ResetKindOf(key);
    hide KindOf;
    PlainFits(v);
    hide Fits;
  }

  lemma NeededIsRequired(record: Record)
    ensures Needed(record) == Required(ShapeOf(record))
    ensures NeedsSome(ShapeOf(record)) <==> Needed(record) == {}
    ensures forall key :: Spoils(ShapeOf(record), key) <==> MustFit(record, key)
  {
  }

  lemma NeededIsPlain(record: Record, key: Key)
    requires key in Needed(record) || MustFit(record, key)
    ensures KindOf(record, key).Some? && !KindOf(record, key).value.A?
  {
  }

  /** A field that is sound is kept, and well. */
  lemma {:induction false} SoundFieldIsKept(record: Record, key: Key, v: Json, number: Coercion)
    requires KindOf(record, key).Some? && SoundField(KindOf(record, key).value, v)
    ensures var field := Field(ShapeOf(record), key, v, number);
            field.Some? && FieldRetained(KindOf(record, key).value, v, field)
    decreases Nesting(record), 0
  {
    var kind := KindOf(record, key).value;
    FieldByTable(record, key, v, number);
    if kind.A? { SoundIsRetained(kind.record, v, number); }
    if kind.Amount? { assert number(Num(v.n)) == Some(v.n); }
  }

  /** A record that counts is kept, with every known field that is well typed as it was. */
  lemma {:induction false} SoundIsRetained(record: Record, v: Json, number: Coercion)
    requires Sound(record, v)
    ensures var normal := Normal(ShapeOf(record), v, number);
            normal.Some? && Retained(record, v, normal.value)
    decreases Nesting(record), 1
  {
    hide Field;
    hide FieldRetained;
    hide KindOf;
    hide Needed;
    hide SoundField;
    var kept := Kept(ShapeOf(record), v.fields, number);
    forall key | KindOf(record, key).Some? && key in v.fields
      ensures SoundField(KindOf(record, key).value, v.fields[key]) ==> key in kept
      ensures FieldRetained(KindOf(record, key).value, v.fields[key], Get(kept, key))
    {
      if SoundField(KindOf(record, key).value, v.fields[key]) {
        SoundFieldIsKept(record, key, v.fields[key], number);
      } else {
        UnsoundIsFree(KindOf(record, key).value, v.fields[key], Get(kept, key));
      }
    }
    hide Kept;
    forall key | key in v.fields && (key in Needed(record) || MustFit(record, key)) ensures key in kept {
      NeededIsPlain(record, key);
    }
    ItCounts(record, v, number, kept);
  }

  lemma ItCounts(record: Record, v: Json, number: Coercion, kept: Fields)
    requires v.Obj? && Needed(record) <= v.fields.Keys && kept == Kept(ShapeOf(record), v.fields, number)
    requires forall key :: key in v.fields && (key in Needed(record) || MustFit(record, key)) ==> key in kept
    requires Needed(record) == {} ==> kept != map[]
    ensures Normal(ShapeOf(record), v, number) == Some(Obj(kept))
  {
    NeededIsRequired(record);
    hide Kept;
    hide Needed;
    hide MustFit;
    hide Required;
    hide Spoils;
    hide NeedsSome;
  }

  lemma UnsoundIsFree(kind: Kind, v: Json, kept: Option<Json>)
    requires !SoundField(kind, v)
    ensures FieldRetained(kind, v, kept)
  {
  }

  /** What may be taken over from a stored field of the kind: strings, flags and exact numbers only as they are. */
  ghost predicate TakenFrom(kind: Kind, v: Json, kept: Json) {
    Fits(kind, kept) && CleanedField(kind, kept) == kept && (kind.Amount? || kind.A? || kept == v)
  }

  lemma {:induction false} FieldIsTaken(record: Record, key: Key, v: Json, number: Coercion)
    requires Field(ShapeOf(record), key, v, number).Some?
    ensures KindOf(record, key).Some?
    ensures TakenFrom(KindOf(record, key).value, v, Field(ShapeOf(record), key, v, number).value)
    decreases Nesting(record), 0
  {
    FieldByTable(record, key, v, number);
    var kind := KindOf(record, key).value;
    if kind.A? { NothingMadeUp(kind.record, v, number); }
  }

  /**
   Whatever is made of a record is well typed and has only fields that the record has; and the record is refused
   if a field that must be well typed is not.
   */
  lemma {:induction false} NothingMadeUp(record: Record, v: Json, number: Coercion)
    requires Normal(ShapeOf(record), v, number).Some?
    ensures var normal := Normal(ShapeOf(record), v, number).value;
            && v.Obj? && Typed(record, normal) && Cleaned(record, normal) == normal
            && forall key :: key in normal.fields ==>
                 && key in v.fields && KindOf(record, key).Some?
                 && TakenFrom(KindOf(record, key).value, v.fields[key], normal.fields[key])
    ensures forall key :: MustFit(record, key) && key in v.fields ==>
              KindOf(record, key).Some? && Fits(KindOf(record, key).value, v.fields[key])
    decreases Nesting(record), 1
  {
    hide Field;
    hide TakenFrom;
    hide Typed;
    hide Cleaned;
    NeededIsRequired(record);
    var kept := Kept(ShapeOf(record), v.fields, number);
    forall key | key in kept
      ensures KindOf(record, key).Some? && TakenFrom(KindOf(record, key).value, v.fields[key], kept[key])
    {
      FieldIsTaken(record, key, v.fields[key], number);
    }
    KeptIsTyped(record, v.fields, kept);
    forall key | MustFit(record, key) && key in v.fields
      ensures KindOf(record, key).Some? && Fits(KindOf(record, key).value, v.fields[key])
    {
      assert Spoils(ShapeOf(record), key) && key in kept;
      FlagTaken(record, key, v.fields[key], kept[key]);
    }
  }

  lemma FlagTaken(record: Record, key: Key, v: Json, kept: Json)
    requires MustFit(record, key) && KindOf(record, key).Some? && TakenFrom(KindOf(record, key).value, v, kept)
    ensures Fits(KindOf(record, key).value, v)
  {
  }

  lemma KeptIsTyped(record: Record, fields: Fields, kept: Fields)
    requires Needed(record) <= kept.Keys <= fields.Keys && (Needed(record) == {} ==> kept != map[])
    requires forall key :: key in kept ==>
               KindOf(record, key).Some? && TakenFrom(KindOf(record, key).value, fields[key], kept[key])
    ensures Typed(record, Obj(kept)) && Cleaned(record, Obj(kept)) == Obj(kept)
  {
    hide Needed;
    hide KindOf;
    if Needed(record) == {} {
      var key :| key in kept;
    }
    assert Cleaned(record, Obj(kept)).fields == kept;
  }

  lemma {:induction false} TypedFieldIsKept(record: Record, key: Key, v: Json, number: Coercion)
    requires KindOf(record, key).Some? && Fits(KindOf(record, key).value, v)
    ensures Field(ShapeOf(record), key, v, number) == Some(CleanedField(KindOf(record, key).value, v))
    decreases Nesting(record), 0
  {
    var kind := KindOf(record, key).value;
    FieldByTable(record, key, v, number);
    if kind.A? { TypedIsKept(kind.record, v, number); }
    if kind.Amount? { assert number(Num(v.n)) == Some(v.n); }
  }

  /** A well-typed record loses nothing but the fields its type does not have. */
  lemma {:induction false} TypedIsKept(record: Record, v: Json, number: Coercion)
    requires Typed(record, v)
    ensures Normal(ShapeOf(record), v, number) == Some(Cleaned(record, v))
    decreases Nesting(record), 1
  {
    hide Field;
    hide Fits;
    hide CleanedField;
    hide KindOf;
    hide Needed;
    var kept := Kept(ShapeOf(record), v.fields, number);
    forall key | key in v.fields
      ensures key in kept <==> KindOf(record, key).Some?
      ensures key in kept ==> kept[key] == CleanedField(KindOf(record, key).value, v.fields[key])
    {
      FieldByTable(record, key, v.fields[key], number);
      if KindOf(record, key).Some? { TypedFieldIsKept(record, key, v.fields[key], number); }
    }
    assert kept == Cleaned(record, v).fields;
    hide Kept;
    forall key | key in v.fields && (key in Needed(record) || MustFit(record, key)) ensures key in kept {
      NeededIsPlain(record, key);
    }
    ItCounts(record, v, number, kept);
  }

  /** Normalising leaves a record as it is exactly when it is well typed and has no fields but those of its type. */
  lemma UnchangedExactlyWhenTyped(record: Record, v: Json, number: Coercion)
    ensures Normal(ShapeOf(record), v, number) == Some(v) <==> Typed(record, v) && Cleaned(record, v) == v
  {
    hide Typed;
    hide Cleaned;
    if Typed(record, v) { TypedIsKept(record, v, number); }
    if Normal(ShapeOf(record), v, number) == Some(v) { NothingMadeUp(record, v, number); }
  }

  /** The mark that a snapshot's spend control was cleared is declared with the rest, and yet does not survive. */
  lemma ClearedMarkerIsLost(window: Json, number: Coercion)
    requires Typed(WindowRecord, window) && Cleaned(WindowRecord, window) == window
    ensures Normal(QuotaShape, Obj(map[Primary := window, Other("spendControlCleared") := Bool(true)]), number)
         == Some(Obj(map[Primary := window]))
  {
    var marker := Other("spendControlCleared");
    var fields := map[Primary := window, marker := Bool(true)];
    SnapshotKinds(marker);
    assert ShapeOf(SnapshotRecord) == QuotaShape;
    assert Fits(A(WindowRecord), window) && CleanedField(A(WindowRecord), window) == window;
    hide *;
    OneFieldStays(fields, Primary, marker);
    TypedIsKept(SnapshotRecord, Obj(fields), number);
  }

  lemma SnapshotKinds(key: Key)
    ensures KindOf(SnapshotRecord, Primary) == Some(A(WindowRecord)) && Needed(SnapshotRecord) == {}
    ensures key.Other? ==> KindOf(SnapshotRecord, key).None?
  {
  }

  lemma OneFieldStays(fields: Fields, known: Key, other: Key)
    requires fields.Keys == {known, other} && Needed(SnapshotRecord) == {}
    requires KindOf(SnapshotRecord, known).Some? && KindOf(SnapshotRecord, other).None?
    requires var kind := KindOf(SnapshotRecord, known).value;
             Fits(kind, fields[known]) && CleanedField(kind, fields[known]) == fields[known]
    ensures Typed(SnapshotRecord, Obj(fields))
    ensures Cleaned(SnapshotRecord, Obj(fields)) == Obj(map[known := fields[known]])
  {
    hide KindOf;
    hide Needed;
    hide Fits;
    hide CleanedField;
    assert Cleaned(SnapshotRecord, Obj(fields)).fields == map[known := fields[known]];
  }

  // ---------------------------------------------------------------------
  // Account rows
  // ---------------------------------------------------------------------

  /** The runtime fields of an account with tokens. */
  function TokenField(key: Key): Option<Kind> {
    if key in {Access, Refresh} then Some(AString)
    else if key in {Expires, LastRefreshedAt, LastUsed} then Some(JustNumber)
    else if key in {LastRefreshError, LastQuotaRefreshError} then Some(A(ErrorRecord))
    else if key == Quota then Some(A(SnapshotRecord))
    else None
  }

  /** That of a corrupt account. */
  function UseField(key: Key): Option<Kind> {
    if key == LastUsed then Some(JustNumber) else None
  }

  /** The settings any account may have. */
  function SettingField(key: Key): Option<Kind> {
    if key in {Label, AccountId} then Some(AString)
    else if key == Enabled then Some(Flag)
    else if key == AddedAt then Some(JustNumber)
    else None
  }

  /**
   Of the fields of these kinds `kept` has the well-typed ones as they were, but for what the type of a record
   does not have; of a record that counts, those of its fields; and nothing that is not among them.
   */
  ghost predicate KeepsOf(kindOf: Key -> Option<Kind>, fields: Fields, kept: Fields) {
    && (forall key :: key in fields && kindOf(key).Some? ==>
          && FieldRetained(kindOf(key).value, fields[key], Get(kept, key))
          && (Fits(kindOf(key).value, fields[key]) ==>
                Get(kept, key) == Some(CleanedField(kindOf(key).value, fields[key]))))
    && (forall key :: key in kept ==>
          key in fields && kindOf(key).Some? && TakenFrom(kindOf(key).value, fields[key], kept[key]))
  }

  predicate NonBlank(fields: Fields, key: Key) {
    key in fields && fields[key].Str? && Trim(fields[key].s) != ""
  }

  predicate IsTokenRow(fields: Fields) {
    && Get(fields, Type) == Some(Str("oauth")) && Get(fields, CorruptFlag) != Some(Bool(true))
    && NonBlank(fields, Refresh)
  }

  predicate IsCorruptRow(fields: Fields) {
    && Get(fields, Type) == Some(Str("oauth")) && NonBlank(fields, Id)
    && (Get(fields, CorruptFlag) == Some(Bool(true)) || (Refresh in fields && !NonBlank(fields, Refresh)))
  }

  predicate IsKeyRow(fields: Fields, acceptable: string -> bool) {
    && Get(fields, Type) == Some(Str("api"))
    && NonBlank(fields, BaseURL) && acceptable(Trim(fields[BaseURL].s))
  }

  /** The account a row with these fields stands for holds what is well typed of them. */
  ghost predicate Holds(account: Account, fields: Fields, uuid: string, acceptable: string -> bool) {
    && account.id == (if NonBlank(fields, Id) then Trim(fields[Id].s) else uuid)
    && match account
       case OAuth(_, entry, settings) =>
         && IsTokenRow(fields)
         && KeepsOf(TokenField, fields, entry) && KeepsOf(SettingField, fields, settings)
       case Corrupt(_, entry, settings) =>
         && IsCorruptRow(fields)
         && KeepsOf(UseField, fields, entry) && KeepsOf(SettingField, fields, settings)
       case Api(_, entry, settings) =>
         && IsKeyRow(fields, acceptable)
         && KeepsOf(UseField, fields, entry - {ApiKey})
         && KeepsOf(SettingField, fields, settings - {BaseURL, AuthHeader})
         && Get(entry, ApiKey) == (if NonBlank(fields, ApiKey) then Some(Str(Trim(fields[ApiKey].s))) else None)
         && Get(settings, BaseURL) == Some(Str(Trim(fields[BaseURL].s)))
         && Get(settings, AuthHeader)
            == Some(if Get(fields, AuthHeader) == Some(Str("x-api-key")) then Str("x-api-key")
                    else Str("authorization-bearer"))
  }

  lemma TokenRecordKept(record: Record, v: Json, number: Coercion)
    ensures var kept := Normal(ShapeOf(record), v, number);
            && (Sound(record, v) ==> kept.Some? && Retained(record, v, kept.value))
            && (Typed(record, v) ==> kept == Some(Cleaned(record, v)))
            && (kept.Some? ==> Typed(record, kept.value) && Cleaned(record, kept.value) == kept.value)
  {
    if Sound(record, v) { SoundIsRetained(record, v, number); }
    if Typed(record, v) { TypedIsKept(record, v, number); }
    if Normal(ShapeOf(record), v, number).Some? { NothingMadeUp(record, v, number); }
  }

  lemma TokenFieldByKind(key: Key, v: Json, number: Coercion)
    ensures OAuthField(key, v, number)
         == if TokenField(key).None? then None
            else if TokenField(key).value.A? then Normal(ShapeOf(TokenField(key).value.record), v, number)
            else if Fits(TokenField(key).value, v) then Some(v) else None
  {
    hide Normal;
    hide Typed;
  }

  lemma TokenFieldKept(key: Key, v: Json, number: Coercion)
    ensures var kept := OAuthField(key, v, number);
            if TokenField(key).None? then kept.None?
            else
              var kind := TokenField(key).value;
              && FieldRetained(kind, v, kept) && (Fits(kind, v) ==> kept == Some(CleanedField(kind, v)))
              && (kept.Some? ==> TakenFrom(kind, v, kept.value))
  {
    TokenFieldByKind(key, v, number);
    hide OAuthField;
    hide TokenField;
    hide Normal;
    hide Typed;
    hide Sound;
    hide Retained;
    hide Cleaned;
    if TokenField(key).Some? {
      var kind := TokenField(key).value;
      if kind.A? { TokenRecordKept(kind.record, v, number); } else { PlainIsKept(kind, v); }
    }
  }

  lemma TokensKept(fields: Fields, number: Coercion)
    ensures KeepsOf(TokenField, fields, OAuthEntry(fields, number))
  {
    hide FieldRetained;
    hide TakenFrom;
    hide Fits;
    hide CleanedField;
    hide OAuthField;
    hide TokenField;
    forall key | key in fields
      ensures var kept := OAuthField(key, fields[key], number);
              if TokenField(key).None? then kept.None?
              else
                var kind := TokenField(key).value;
                && FieldRetained(kind, fields[key], kept)
                && (Fits(kind, fields[key]) ==> kept == Some(CleanedField(kind, fields[key])))
                && (kept.Some? ==> TakenFrom(kind, fields[key], kept.value))
    {
      TokenFieldKept(key, fields[key], number);
    }
  }

  lemma PlainIsKept(kind: Kind, v: Json)
    requires !kind.A?
    ensures var kept := if Fits(kind, v) then Some(v) else None;
            && FieldRetained(kind, v, kept) && CleanedField(kind, v) == v
            && (kept.Some? ==> TakenFrom(kind, v, kept.value))
  {
  }

  lemma SettingsKept(fields: Fields)
    ensures KeepsOf(SettingField, fields, BaseSettings(fields))
  {
    forall key | key in fields
      ensures BaseField(key, fields[key])
           == if SettingField(key).Some? && Fits(SettingField(key).value, fields[key]) then Some(fields[key]) else None
      ensures SettingField(key).Some? ==> !SettingField(key).value.A?
    {
    }
    hide BaseField;
    hide SettingField;
    hide FieldRetained;
    hide TakenFrom;
    hide Fits;
    hide CleanedField;
    forall key | key in fields && SettingField(key).Some? { PlainIsKept(SettingField(key).value, fields[key]); }
  }

  lemma UseKept(fields: Fields)
    ensures KeepsOf(UseField, fields, CorruptEntry(fields))
  {
    forall key | key in fields && UseField(key).Some? { PlainIsKept(UseField(key).value, fields[key]); }
    hide FieldRetained;
    hide TakenFrom;
    hide CleanedField;
  }

  lemma KeySettingsKept(fields: Fields)
    ensures ApiEntry(fields) - {ApiKey} == CorruptEntry(fields)
    ensures ApiSettings(fields) - {BaseURL, AuthHeader} == BaseSettings(fields)
  {
    hide Trim;
  }

  lemma BlankOrNot(fields: Fields, key: Key)
    ensures Trimmed(fields, key) != "" <==> NonBlank(fields, key)
    ensures NonBlank(fields, key) ==> Trimmed(fields, key) == Trim(fields[key].s)
    ensures key == Id ==> RosterId(Obj(fields)) == if NonBlank(fields, Id) then Some(Trim(fields[Id].s)) else None
  {
    hide Trim;
  }

  lemma KeyEntryIs(fields: Fields)
    ensures Get(ApiEntry(fields), ApiKey)
         == if NonBlank(fields, ApiKey) then Some(Str(Trim(fields[ApiKey].s))) else None
    ensures Get(ApiSettings(fields), BaseURL) == Some(Str(Trimmed(fields, BaseURL)))
    ensures Get(ApiSettings(fields), AuthHeader)
         == Some(if Get(fields, AuthHeader) == Some(Str("x-api-key")) then Str("x-api-key")
                 else Str("authorization-bearer"))
  {
    hide Trim;
    hide BaseSettings;
  }

  /** Which account a row makes. */
  lemma RowMakes(fields: Fields, uuid: string, context: Context)
    ensures var account := NormalizeAccount(Obj(fields), uuid, context);
            var id := if NonBlank(fields, Id) then Trim(fields[Id].s) else uuid;
            if IsTokenRow(fields) then
              account == Some(OAuth(id, OAuthEntry(fields, context.number), BaseSettings(fields)))
            else if IsCorruptRow(fields) then account == Some(Corrupt(id, CorruptEntry(fields), BaseSettings(fields)))
            else if IsKeyRow(fields, context.acceptable) then
              account == Some(Api(id, ApiEntry(fields), ApiSettings(fields)))
            else account == None
    ensures IsTokenRow(fields) ==> !IsCorruptRow(fields) && !IsKeyRow(fields, context.acceptable)
    ensures IsCorruptRow(fields) ==> !IsKeyRow(fields, context.acceptable)
  {
    BlankOrNot(fields, Id);
    BlankOrNot(fields, Refresh);
    BlankOrNot(fields, BaseURL);
    hide OAuthEntry;
    hide CorruptEntry;
    hide BaseSettings;
    hide ApiSettings;
    hide ApiEntry;
    hide Trim;
    hide Trimmed;
    hide NonBlank;
    hide RosterId;
  }

  /** Each of these accounts holds what it should. */
  lemma RowsHold(fields: Fields, uuid: string, context: Context)
    ensures var id := if NonBlank(fields, Id) then Trim(fields[Id].s) else uuid;
            && (IsTokenRow(fields) ==>
                  Holds(OAuth(id, OAuthEntry(fields, context.number), BaseSettings(fields)), fields, uuid,
                        context.acceptable))
            && (IsCorruptRow(fields) ==>
                  Holds(Corrupt(id, CorruptEntry(fields), BaseSettings(fields)), fields, uuid, context.acceptable))
            && (IsKeyRow(fields, context.acceptable) ==>
                  Holds(Api(id, ApiEntry(fields), ApiSettings(fields)), fields, uuid, context.acceptable))
  {
    TokensKept(fields, context.number);
    SettingsKept(fields);
    UseKept(fields);
    KeySettingsKept(fields);
    KeyEntryIs(fields);
    BlankOrNot(fields, BaseURL);
    hide IsTokenRow;
    hide IsCorruptRow;
    hide KeepsOf;
    hide OAuthEntry;
    hide CorruptEntry;
    hide BaseSettings;
    hide ApiSettings;
    hide ApiEntry;
    hide Trim;
    hide Trimmed;
    hide NonBlank;
  }

  /** A row loads exactly when it is one of the three kinds, and then its account holds what it should. */
  lemma RowLoadsExactlyWhen(row: Json, uuid: string, context: Context)
    ensures var account := NormalizeAccount(row, uuid, context);
            && (account.Some? <==>
                  row.Obj? && (|| IsTokenRow(row.fields) || IsCorruptRow(row.fields)
                               || IsKeyRow(row.fields, context.acceptable)))
            && (account.Some? ==> Holds(account.value, row.fields, uuid, context.acceptable))
  {
    if row.Obj? {
      hide *;
      RowMakes(row.fields, uuid, context);
      RowsHold(row.fields, uuid, context);
    }
  }

  // ---------------------------------------------------------------------
  // Loading
  // ---------------------------------------------------------------------

  /** The fields of a row where the state file has its say first, under exactly the row's id. */
  function StoredFields(row: Json, state: State): Fields
    requires row.Obj?
  {
    var runtime: Fields :=
      if Id in row.fields && row.fields[Id].Str? && row.fields[Id].s in state then state[row.fields[Id].s] else map[];
    map key | key in row.fields.Keys + runtime.Keys :: if key in runtime then runtime[key] else row.fields[key]
  }

  lemma MergedIsStored(row: Json, state: State)
    ensures row.Obj? ==> MergedRow(row, state) == Obj(StoredFields(row, state))
    ensures !row.Obj? ==> MergedRow(row, state) == row
  {
  }

  lemma {:induction false} LoadedFromRows(rows: seq<Json>, state: State, context: Context)
    requires |context.uuids| >= |rows|
    ensures forall i :: 0 <= i < |rows| ==>
              var account := NormalizeAccount(MergedRow(rows[i], state), context.uuids[i], context);
              account.Some? ==> account.value in LoadRows(rows, state, context)
    ensures forall account :: account in LoadRows(rows, state, context) ==>
              exists i :: && 0 <= i < |rows|
                          && NormalizeAccount(MergedRow(rows[i], state), context.uuids[i], context) == Some(account)
    ensures |LoadRows(rows, state, context)| <= |rows|
    decreases |rows|
  {
    hide NormalizeAccount;
    hide MergedRow;
    if rows != [] {
      var n := |rows| - 1;
      LoadedFromRows(rows[..n], state, context);
    }
  }

  /** The row is one of the three kinds, with the state file's fields over its own. */
  ghost predicate Loads(row: Json, state: State, context: Context) {
    row.Obj? &&
    var fields := StoredFields(row, state);
    IsTokenRow(fields) || IsCorruptRow(fields) || IsKeyRow(fields, context.acceptable)
  }

  ghost predicate HoldsRow(account: Account, row: Json, state: State, uuid: string, context: Context) {
    row.Obj? && Holds(account, StoredFields(row, state), uuid, context.acceptable)
  }

  /**
   Every row of the three kinds is loaded into an account that holds, of the row and its state, every field that
   is well typed as it is stored; and every account loaded holds what such a row has and nothing more.
   */
  lemma LoadingKeepsWhatIsTyped(rows: seq<Json>, state: State, context: Context)
    requires |context.uuids| >= |rows|
    ensures forall i :: 0 <= i < |rows| && Loads(rows[i], state, context) ==>
              exists account :: account in LoadRows(rows, state, context)
                                && HoldsRow(account, rows[i], state, context.uuids[i], context)
    ensures forall account :: account in LoadRows(rows, state, context) ==>
              exists i :: 0 <= i < |rows| && Loads(rows[i], state, context)
                          && HoldsRow(account, rows[i], state, context.uuids[i], context)
  {
    LoadedFromRows(rows, state, context);
    hide LoadRows;
    hide Holds;
    hide NormalizeAccount;
    hide MergedRow;
    hide StoredFields;
    hide IsTokenRow;
    hide IsCorruptRow;
    hide IsKeyRow;
    forall i | 0 <= i < |rows|
      ensures var account := NormalizeAccount(MergedRow(rows[i], state), context.uuids[i], context);
              && (account.Some? <==> Loads(rows[i], state, context))
              && (account.Some? ==> HoldsRow(account.value, rows[i], state, context.uuids[i], context))
    {
      MergedIsStored(rows[i], state);
      RowLoadsExactlyWhen(MergedRow(rows[i], state), context.uuids[i], context);
    }
  }

  // ---------------------------------------------------------------------
  // Settings
  // ---------------------------------------------------------------------

  function AsReal(i: int): real {
    i as real
  }

  ghost predicate IsInteger(v: Json) {
    v.Num? && exists i :: AsReal(i) == v.n
  }

  lemma {:induction false} IntegersOfAppend(a: seq<Json>, b: seq<Json>)
    ensures Integers(a + b) == Integers(a) + Integers(b)
    decreases |b|
  {
    if b == [] {
      assert a + b == a && Integers(a) + [] == Integers(a);
    } else {
      var n := |b| - 1;
      IntegersOfAppend(a, b[..n]);
      assert (a + b)[..|a| + n] == a + b[..n];
    }
  }

  lemma IntegersOfOne(v: Json)
    ensures Integers([v]) == if IsInteger(v) then [v] else []
  {
    assert [v][..0] == [];
    if v.Num? { assert v.n.Floor as real == v.n ==> AsReal(v.n.Floor) == v.n; }
  }

  /**
   Of the settings, the records and the main account's id are kept as they are when they are well typed; of the
   statuses the integers stay in order; of the reset state every row under a safe name that counts is kept with
   its well-typed fields, and what is kept comes from such a row. Nothing else is a setting.
   */
  lemma SettingsByType(key: Key, v: Json, number: Coercion)
    ensures key in {Routing, Refresh, Quota, Dump, CostZeroing, Killswitch, Logging, Cachekeep, CacheKeep} ==>
              Setting(key, v, number) == if v.Obj? then Some(v) else None
    ensures key == MainAccountId ==> Setting(key, v, number) == if v.Str? then Some(v) else None
    ensures key == FallbackOn ==>
              if !v.Arr? then Setting(key, v, number).None?
              else
                && Setting(key, v, number) == Some(Arr(Integers(v.items)))
                && ((forall item :: item in v.items ==> IsInteger(item)) ==> Setting(key, v, number) == Some(v))
    ensures key == Reset && Setting(key, v, number).Some? ==>
              v.Table? && Setting(key, v, number).value.Table? &&
              forall id :: id in Setting(key, v, number).value.rows ==>
                id in v.rows && id !in {"", "__proto__", "constructor", "prototype"}
                && Typed(ResetRecord, Setting(key, v, number).value.rows[id])
    ensures key == Reset && v.Table? ==>
              forall id :: id in v.rows && id !in {"", "__proto__", "constructor", "prototype"}
                           && Sound(ResetRecord, v.rows[id]) ==>
                Setting(key, v, number).Some? && Setting(key, v, number).value.Table?
                && id in Setting(key, v, number).value.rows
                && Retained(ResetRecord, v.rows[id], Setting(key, v, number).value.rows[id])
    ensures Setting(key, v, number).Some? ==>
              key in {Routing, Refresh, Quota, Dump, CostZeroing, Killswitch, Logging, Cachekeep, CacheKeep, Reset,
                      FallbackOn, MainAccountId}
  {
    hide Normal;
    hide Typed;
    hide Sound;
    hide Retained;
    hide Integers;
    hide ResetRows;
    if key == Reset && v.Table? { ResetRowsByType(v.rows, number); }
    if key == FallbackOn && v.Arr? { AllIntegers(v.items); }
  }

  lemma ResetRowsByType(rows: map<string, Json>, number: Coercion)
    ensures forall id :: id in ResetRows(rows, number) ==>
              id in rows && id !in {"", "__proto__", "constructor", "prototype"}
              && Typed(ResetRecord, ResetRows(rows, number)[id])
    ensures forall id :: id in rows && id !in {"", "__proto__", "constructor", "prototype"}
                         && Sound(ResetRecord, rows[id]) ==>
              id in ResetRows(rows, number) && Retained(ResetRecord, rows[id], ResetRows(rows, number)[id])
  {
    hide Normal;
    hide Typed;
    hide Sound;
    hide Retained;
    forall id | id in rows && Normal(ResetShape, rows[id], number).Some? {
      NothingMadeUp(ResetRecord, rows[id], number);
    }
    forall id | id in rows && Sound(ResetRecord, rows[id])
      ensures Normal(ResetShape, rows[id], number).Some?
              && Retained(ResetRecord, rows[id], Normal(ResetShape, rows[id], number).value)
    {
      SoundIsRetained(ResetRecord, rows[id], number);
    }
  }

  lemma {:induction false} AllIntegers(items: seq<Json>)
    ensures (forall item :: item in items ==> IsInteger(item)) ==> Integers(items) == items
    decreases |items|
  {
    if items != [] {
      var n := |items| - 1;
      AllIntegers(items[..n]);
      IntegersOfAppend(items[..n], [items[n]]);
      IntegersOfOne(items[n]);
      assert items == items[..n] + [items[n]];
      hide Integers;
    }
  }
}
