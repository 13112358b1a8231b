/**
 The saved reset-credit redemption of one account row: how it is read, claimed and settled.

 A "pair" is the request id and credit id the server dedupes on. It stays saved until a
 terminal answer is written, so that a retry repeats the same redemption.
 */
module ResetCredits {
  import opened Options

  const RESET_IN_FLIGHT_TTL_MS: int := 5 * 60_000
  const RESET_COOLDOWN_MS: int := 60_000
  const UNSAFE_RESET_ACCOUNT_KEYS: set<string> := {"__proto__", "constructor", "prototype"}

  predicate IsSafeResetAccountKey(key: string) {
    key != "" && key !in UNSAFE_RESET_ACCOUNT_KEYS
  }

  // ---------------------------------------------------------------------
  // Saved state
  // ---------------------------------------------------------------------

  /** A stored account name: absent, readable, or present but not a string. */
  datatype AccountField = NoAccount | Account(id: string) | UnreadableAccount

  /** The stored record as it is found: `None` is a field that is missing or of the wrong type. */
  datatype RawPair = RawPair(
    redeemRequestId: Option<string>,
    creditId: Option<string>,
    startedAt: Option<int>,
    chatgptAccountId: AccountField,
    rejectedStatus: Option<int>,
    unknownAnswers: Option<int>)

  /** A readable pair. No recorded unknown answers is a count of zero. */
  datatype SavedPair = SavedPair(
    redeemRequestId: string,
    creditId: string,
    startedAt: int,
    chatgptAccountId: Option<string>,
    rejectedStatus: Option<int>,
    unknownAnswers: nat)

  datatype Outcome = Outcome(code: string, at: int)
  datatype LastOutcome = LastOutcome(latest: Outcome, previous: Option<Outcome>)

  datatype AccountState = AccountState(
    inFlight: Option<RawPair>,
    lastOutcome: Option<LastOutcome>,
    cooldownUntil: Option<int>)

  const EMPTY_STATE := AccountState(None, None, None)

  /** What the server dedupes on. */
  datatype PairId = PairId(redeemRequestId: string, creditId: string)

  function Id(pair: SavedPair): PairId {
    PairId(pair.redeemRequestId, pair.creditId)
  }

  datatype Answer =
    | Reset
    | AlreadyRedeemed
    | NothingToReset
    | NoCredit
    | HttpError(status: int)
    | Ambiguous

  predicate IsTerminal(answer: Answer) {
    answer.Reset? || answer.AlreadyRedeemed? || answer.NothingToReset? || answer.NoCredit?
  }

  function Code(answer: Answer): string {
    match answer
    case Reset => "reset"
    case AlreadyRedeemed => "already_redeemed"
    case NothingToReset => "nothing_to_reset"
    case NoCredit => "no_credit"
    case HttpError(_) => "http_error"
    case Ambiguous => "ambiguous"
  }

  /** A 4xx other than the ones that mean "not now". */
  predicate IsDefiniteRefusal(status: int) {
    400 <= status < 500 && status !in {408, 409, 425, 429}
  }

  function Refusal(answer: Answer): Option<int> {
    if answer.HttpError? && IsDefiniteRefusal(answer.status) then Some(answer.status) else None
  }

  /** Neither a terminal answer nor a definite refusal. */
  predicate IsUnknown(answer: Answer) {
    !IsTerminal(answer) && Refusal(answer).None?
  }

  function ValidInFlight(raw: RawPair): Option<SavedPair> {
    if raw.redeemRequestId.None? || raw.redeemRequestId.value == "" then None
    else if raw.creditId.None? || raw.creditId.value == "" then None
    else if raw.startedAt.None? then None
    else if raw.chatgptAccountId.UnreadableAccount? || raw.chatgptAccountId == Account("") then None
    else Some(SavedPair(
      raw.redeemRequestId.value,
      raw.creditId.value,
      raw.startedAt.value,
      if raw.chatgptAccountId.Account? then Some(raw.chatgptAccountId.id) else None,
      if raw.rejectedStatus.Some? && IsDefiniteRefusal(raw.rejectedStatus.value) then raw.rejectedStatus else None,
      if raw.unknownAnswers.Some? && raw.unknownAnswers.value > 0 then raw.unknownAnswers.value else 0))
  }

  function ToRaw(pair: SavedPair): RawPair {
    RawPair(
      Some(pair.redeemRequestId),
      Some(pair.creditId),
      Some(pair.startedAt),
      if pair.chatgptAccountId.Some? then Account(pair.chatgptAccountId.value) else NoAccount,
      pair.rejectedStatus,
      if pair.unknownAnswers == 0 then None else Some(pair.unknownAnswers))
  }

  /** The pairs a write can leave behind and a later read gets back whole. */
  predicate Readable(pair: SavedPair) {
    && pair.redeemRequestId != "" && pair.creditId != ""
    && pair.chatgptAccountId != Some("")
    && (pair.rejectedStatus.Some? ==> IsDefiniteRefusal(pair.rejectedStatus.value))
  }

  /** A written pair reads back as itself, and only readable pairs ever come out of a read. */
  lemma PairRoundTrip(pair: SavedPair, raw: RawPair)
    ensures Readable(pair) <==> ValidInFlight(ToRaw(pair)) == Some(pair)
    ensures ValidInFlight(raw).Some? ==> Readable(ValidInFlight(raw).value)
  {
    if !Readable(pair) && ValidInFlight(ToRaw(pair)).Some? {
      assert pair.rejectedStatus.Some? && !IsDefiniteRefusal(pair.rejectedStatus.value);
    }
  }

  /** The readable pair of a state, if it has one. */
  function PairOf(state: Option<AccountState>): Option<SavedPair> {
    if state.Some? && state.value.inFlight.Some? then ValidInFlight(state.value.inFlight.value) else None
  }

  predicate IsCorrupt(state: Option<AccountState>) {
    state.Some? && state.value.inFlight.Some? && PairOf(state).None?
  }

  predicate IsYoung(pair: SavedPair, now: int) {
    now - pair.startedAt < RESET_IN_FLIGHT_TTL_MS
  }

  predicate MayReplaceExpiredPair(pair: SavedPair, account: Option<string>) {
    || (pair.chatgptAccountId.Some? && pair.chatgptAccountId != account)
    || pair.rejectedStatus.Some?
  }

  predicate BelongsTo(pair: SavedPair, account: Option<string>) {
    pair.chatgptAccountId.Some? ==> pair.chatgptAccountId == account
  }

  // ---------------------------------------------------------------------
  // Decisions and writes, as functions of the saved state
  // ---------------------------------------------------------------------

  datatype Decision =
    | Fresh
    | Claim(pair: SavedPair)
    | ExpiredUnreconciled(pair: SavedPair)
    | Cooldown(until: int)
    | Corrupt

  function Inspect(state: Option<AccountState>, now: int): Decision {
    var pair := PairOf(state);
    if IsCorrupt(state) then Corrupt
    else if state.Some? && state.value.cooldownUntil.Some? && state.value.cooldownUntil.value > now then
      Cooldown(state.value.cooldownUntil.value)
    else if pair.Some? && IsYoung(pair.value, now) then Claim(pair.value)
    else if pair.Some? then ExpiredUnreconciled(pair.value)
    else Fresh
  }

  function Orelse(state: Option<AccountState>): AccountState {
    if state.Some? then state.value else EMPTY_STATE
  }

  /** The state after its unreadable pair is written off. */
  function WrittenOff(state: Option<AccountState>, now: int): AccountState {
    var s := Orelse(state);
    s.(inFlight := None,
       lastOutcome := Some(LastOutcome(Outcome("ambiguous_local", now),
                                       if s.lastOutcome.Some? then Some(s.lastOutcome.value.latest) else None)))
  }

  function MintedPair(now: int, creditId: string, account: Option<string>, uuid: string): SavedPair {
    SavedPair(uuid, creditId, now, account, None, 0)
  }

  /** Whether the locked claim mints a new pair. */
  predicate Mints(state: Option<AccountState>, now: int, credit: Option<string>, account: Option<string>) {
    var decision := Inspect(state, now);
    && (decision.Fresh? || (decision.ExpiredUnreconciled? && MayReplaceExpiredPair(decision.pair, account)))
    && credit.Some?
  }

  function ClaimDecision(state: Option<AccountState>, now: int, credit: Option<string>,
                         account: Option<string>, uuid: string): Decision
  {
    var decision := Inspect(state, now);
    if decision.ExpiredUnreconciled? && MayReplaceExpiredPair(decision.pair, account) && credit.None? then Fresh
    else if Mints(state, now, credit, account) then Claim(MintedPair(now, credit.value, account, uuid))
    else decision
  }

  function ClaimState(state: Option<AccountState>, now: int, credit: Option<string>,
                      account: Option<string>, uuid: string): Option<AccountState>
  {
    if IsCorrupt(state) then Some(WrittenOff(state, now))
    else if Mints(state, now, credit, account) then
      Some(Orelse(state).(inFlight := Some(ToRaw(MintedPair(now, credit.value, account, uuid)))))
    else state
  }

  /** The saved pair, when it is still the one `completing` was read as. */
  function SavedMatching(state: Option<AccountState>, completing: SavedPair): Option<SavedPair> {
    if PairOf(state).Some? && Id(PairOf(state).value) == Id(completing) then PairOf(state) else None
  }

  /** The saved pair once an answer that settles nothing is recorded on it. */
  function Annotated(saved: SavedPair, completing: SavedPair, answer: Answer, sentAs: Option<string>): SavedPair {
    var bound := if saved.chatgptAccountId.None? then saved.(chatgptAccountId := sentAs) else saved;
    if Refusal(answer).None? then
      bound.(rejectedStatus := None, unknownAnswers := saved.unknownAnswers + 1)
    else if saved.unknownAnswers == completing.unknownAnswers then
      bound.(rejectedStatus := Refusal(answer))
    else bound
  }

  /** A repeated refusal changes nothing and is not written. */
  predicate IsRepeatedRefusal(completing: SavedPair, answer: Answer, sentAs: Option<string>) {
    && !(completing.chatgptAccountId.None? && sentAs.Some?)
    && Refusal(answer).Some?
    && Refusal(answer) == completing.rejectedStatus
  }

  function Settled(state: AccountState, answer: Answer, now: int): AccountState {
    AccountState(None, Some(LastOutcome(Outcome(Code(answer), now), None)),
                 if answer.Reset? || answer.AlreadyRedeemed? then Some(now + RESET_COOLDOWN_MS) else None)
  }

  /** The state once the answer to one send of `completing` is written. */
  function AnswerState(state: Option<AccountState>, completing: SavedPair, answer: Answer,
                       sentAs: Option<string>, now: int): Option<AccountState>
  {
    var saved := SavedMatching(state, completing);
    if saved.None? then state
    else if IsTerminal(answer) then Some(Settled(state.value, answer, now))
    else if IsRepeatedRefusal(completing, answer, sentAs) then state
    else Some(state.value.(inFlight := Some(ToRaw(Annotated(saved.value, completing, answer, sentAs)))))
  }

  /** The pair reported back to the sender. */
  function ReportedPair(state: Option<AccountState>, completing: SavedPair, answer: Answer,
                        sentAs: Option<string>): Option<SavedPair>
  {
    var saved := SavedMatching(state, completing);
    if IsTerminal(answer) || saved.None? then None
    else if IsRepeatedRefusal(completing, answer, sentAs) then saved
    else Some(Annotated(saved.value, completing, answer, sentAs))
  }

  // ---------------------------------------------------------------------
  // The store's in-place edits, each under the account-store lock
  // ---------------------------------------------------------------------

  class ResetStore {
    var reset: map<string, AccountState>

    function StateOf(key: string): Option<AccountState>
      reads this
    {
      if IsSafeResetAccountKey(key) && key in reset then Some(reset[key]) else None
    }

    constructor ()
      ensures reset == map[]
    {
      reset := map[];
    }

    /** Every row but `key` stays as it was. */
    twostate predicate OnlyChanges(key: string)
      reads this
    {
      reset - {key} == old(reset) - {key}
    }

    method ResolveCorruptState(key: string, now: int)
      modifies this
      ensures OnlyChanges(key)
      ensures StateOf(key) == if IsSafeResetAccountKey(key) then Some(WrittenOff(old(StateOf(key)), now)) else None
    {
      if !IsSafeResetAccountKey(key) { return; }
      var state := if key in reset then reset[key] else EMPTY_STATE;
      var previous := state.lastOutcome;
      state := state.(inFlight := None);
      state := state.(lastOutcome :=
        Some(LastOutcome(Outcome("ambiguous_local", now),
                         if previous.Some? then Some(previous.value.latest) else None)));
      reset := reset[key := state];
    }

    method ResolveCorruptResetAttempt(key: string, now: int) returns (decision: Decision)
      modifies this
      ensures OnlyChanges(key)
      ensures decision == Inspect(old(StateOf(key)), now)
      ensures StateOf(key)
           == if decision.Corrupt? then Some(WrittenOff(old(StateOf(key)), now)) else old(StateOf(key))
    {
      decision := Inspect(StateOf(key), now);
      if decision.Corrupt? {
        ResolveCorruptState(key, now);
      }
    }

    method ClaimResetAttempt(key: string, now: int, credit: Option<string>, account: Option<string>, uuid: string)
      returns (decision: Decision)
      modifies this
      ensures OnlyChanges(key)
      ensures key !in {"", "__proto__", "constructor", "prototype"} ==>
                && decision == ClaimDecision(old(StateOf(key)), now, credit, account, uuid)
                && StateOf(key) == ClaimState(old(StateOf(key)), now, credit, account, uuid)
      ensures key in {"", "__proto__", "constructor", "prototype"} ==> decision == Fresh && reset == old(reset)
    {
      if !IsSafeResetAccountKey(key) { return Fresh; }
      var state := StateOf(key);
      var inFlight := PairOf(state);
      if state.Some? && state.value.inFlight.Some? && inFlight.None? {
        ResolveCorruptState(key, now);
        return Corrupt;
      }
      if state.Some? && state.value.cooldownUntil.Some? && state.value.cooldownUntil.value > now {
        return Cooldown(state.value.cooldownUntil.value);
      }
      if inFlight.Some? && IsYoung(inFlight.value, now) {
        return Claim(inFlight.value);
      }
      if inFlight.Some? && !MayReplaceExpiredPair(inFlight.value, account) {
        return ExpiredUnreconciled(inFlight.value);
      }
      if credit.None? { return Fresh; }
      var claimed := SavedPair(uuid, credit.value, now, account, None, 0);
      reset := reset[key := Orelse(state).(inFlight := Some(ToRaw(claimed)))];
      return Claim(claimed);
    }

    method FinalizeResetAttempt(key: string, completing: SavedPair, answer: Answer, sentAs: Option<string>, now: int)
      returns (saved: Option<SavedPair>)
      modifies this
      ensures OnlyChanges(key)
      ensures StateOf(key) == AnswerState(old(StateOf(key)), completing, answer, sentAs, now)
      ensures saved == ReportedPair(old(StateOf(key)), completing, answer, sentAs)
      ensures key in {"", "__proto__", "constructor", "prototype"} ==> saved == None && reset == old(reset)
    {
      if !IsSafeResetAccountKey(key) { return None; }
      if !IsTerminal(answer) {
        saved := RecordUnreconciledAnswer(key, completing, answer, sentAs);
        return;
      }
      var state := StateOf(key);
      var persisted := PairOf(state);
      if state.None? || persisted.None?
         || persisted.value.redeemRequestId != completing.redeemRequestId
         || persisted.value.creditId != completing.creditId
      {
        return None;
      }
      var next := state.value.(inFlight := None);
      next := next.(lastOutcome := Some(LastOutcome(Outcome(Code(answer), now), None)));
      if answer.Reset? || answer.AlreadyRedeemed? {
        next := next.(cooldownUntil := Some(now + RESET_COOLDOWN_MS));
      } else {
        next := next.(cooldownUntil := None);
      }
      reset := reset[key := next];
      return None;
    }

    method RecordUnreconciledAnswer(key: string, completing: SavedPair, answer: Answer, sentAs: Option<string>)
      returns (saved: Option<SavedPair>)
      requires IsSafeResetAccountKey(key) && !IsTerminal(answer)
      modifies this
      ensures OnlyChanges(key)
      ensures forall now :: StateOf(key) == AnswerState(old(StateOf(key)), completing, answer, sentAs, now)
      ensures saved == ReportedPair(old(StateOf(key)), completing, answer, sentAs)
    {
      var refusal := Refusal(answer);
      var bind := completing.chatgptAccountId.None? && sentAs.Some?;
      if !bind && refusal.Some? && refusal == completing.rejectedStatus {
        return SavedMatching(StateOf(key), completing);
      }
      saved := None;
      var state := StateOf(key);
      var persisted := SavedMatching(state, completing);
      if state.None? || persisted.None? { return; }
      var next := persisted.value;
      if next.chatgptAccountId.None? && sentAs.Some? {
        next := next.(chatgptAccountId := sentAs);
      }
      if refusal.None? {
        next := next.(rejectedStatus := None);
        next := next.(unknownAnswers := persisted.value.unknownAnswers + 1);
      } else if persisted.value.unknownAnswers == completing.unknownAnswers {
        next := next.(rejectedStatus := refusal);
      }
      reset := reset[key := state.value.(inFlight := Some(ToRaw(next)))];
      saved := Some(next);
    }
  }

  // ---------------------------------------------------------------------
  // What a claim answers, by what the row holds
  // ---------------------------------------------------------------------

  /** The row holds a pair with these parts, every one of them usable. */
  predicate RowHolds(row: Option<AccountState>, requestId: string, creditId: string, startedAt: int,
                     account: Option<string>)
  {
    && row.Some? && row.value.inFlight.Some? && requestId != "" && creditId != "" && account != Some("")
    && var raw := row.value.inFlight.value;
       raw.(rejectedStatus := None, unknownAnswers := None)
       == RawPair(Some(requestId), Some(creditId), Some(startedAt),
                  if account.None? then NoAccount else Account(account.value), None, None)
  }

  predicate RowIsFree(row: Option<AccountState>) {
    row.None? || row.value.inFlight.None?
  }

  ghost predicate RowIsSpoilt(row: Option<AccountState>) {
    !RowIsFree(row) && forall requestId, creditId, startedAt, account ::
      !RowHolds(row, requestId, creditId, startedAt, account)
  }

  predicate RowCools(row: Option<AccountState>, now: int, until: int) {
    row.Some? && row.value.cooldownUntil == Some(until) && until > now
  }

  /** The row notes that the server refused the pair for good. */
  predicate RowIsRefused(row: Option<AccountState>) {
    && row.Some? && row.value.inFlight.Some? && row.value.inFlight.value.rejectedStatus.Some?
    && var status := row.value.inFlight.value.rejectedStatus.value;
       400 <= status <= 499 && status != 408 && status != 409 && status != 425 && status != 429
  }

  /** The row as before but with a new pair in it that nothing is noted about. */
  predicate NowHolds(row: Option<AccountState>, after: Option<AccountState>, requestId: string, creditId: string,
                     startedAt: int, account: Option<string>)
  {
    && after.Some?
    && after.value.inFlight == Some(RawPair(Some(requestId), Some(creditId), Some(startedAt),
                                            if account.None? then NoAccount else Account(account.value), None, None))
    && after.value.lastOutcome == (if row.Some? then row.value.lastOutcome else None)
    && after.value.cooldownUntil == (if row.Some? then row.value.cooldownUntil else None)
  }

  /** The row without its pair, whose loss is noted in front of the last outcome. */
  predicate NowWrittenOff(row: AccountState, after: Option<AccountState>, now: int) {
    && after.Some? && after.value.inFlight.None? && after.value.cooldownUntil == row.cooldownUntil
    && after.value.lastOutcome.Some?
    && after.value.lastOutcome.value.latest == Outcome("ambiguous_local", now)
    && after.value.lastOutcome.value.previous
       == if row.lastOutcome.Some? then Some(row.lastOutcome.value.latest) else None
  }

  /**
   A claim writes off a pair that cannot be used, waits out a cooldown, and hands out a pair of less than five
   minutes. An older one is handed back as unreconciled unless it names another account or was refused for good;
   in its place, and where none is held, a new pair is made if there is a credit.
   */
  lemma ClaimAnswers(row: Option<AccountState>, now: int, credit: Option<string>, account: Option<string>,
                     uuid: string, until: int, requestId: string, creditId: string, startedAt: int,
                     owner: Option<string>)
    ensures var decision, after := ClaimDecision(row, now, credit, account, uuid),
                                   ClaimState(row, now, credit, account, uuid);
            && (RowIsSpoilt(row) ==> decision == Corrupt && NowWrittenOff(row.value, after, now))
            && (!RowIsSpoilt(row) && RowCools(row, now, until) ==> decision == Cooldown(until) && after == row)
    ensures !RowIsSpoilt(row) && (forall end :: !RowCools(row, now, end)) ==>
              var decision, after := ClaimDecision(row, now, credit, account, uuid),
                                     ClaimState(row, now, credit, account, uuid);
              var pair := if decision.Claim? || decision.ExpiredUnreconciled? then Some(decision.pair) else None;
              var held := RowHolds(row, requestId, creditId, startedAt, owner);
              var young, free := now - startedAt < 300_000, (owner.Some? && owner != account) || RowIsRefused(row);
              && (RowIsFree(row) || (held && !young && free) ==>
                    if credit.None? then decision == Fresh && after == row
                    else decision == Claim(SavedPair(uuid, credit.value, now, account, None, 0))
                         && NowHolds(row, after, uuid, credit.value, now, account))
              && (held && (young || !free) ==>
                    && (if young then decision.Claim? else decision.ExpiredUnreconciled?) && after == row
                    && pair.value.redeemRequestId == requestId && pair.value.creditId == creditId
                    && pair.value.startedAt == startedAt && pair.value.chatgptAccountId == owner
                    && (pair.value.rejectedStatus.Some? <==> RowIsRefused(row)))
  {
    SpoiltIsCorrupt(row);
    assert row.Some? && row.value.cooldownUntil.Some? && row.value.cooldownUntil.value > now ==>
             RowCools(row, now, row.value.cooldownUntil.value);
  }

  /** The row holds the pair under the same two ids, whatever is noted about it. */
  ghost predicate RowHoldsThat(row: Option<AccountState>, pair: SavedPair) {
    exists startedAt, account :: RowHolds(row, pair.redeemRequestId, pair.creditId, startedAt, account)
  }

  /** An answer to a pair the row no longer holds changes nothing; a last one clears the pair and is noted. */
  lemma AnswerIsNoted(row: Option<AccountState>, sent: SavedPair, answer: Answer, sentAs: Option<string>, now: int)
    ensures var after := AnswerState(row, sent, answer, sentAs, now);
            var noted := (code: string) => Some(LastOutcome(Outcome(code, now), None));
            if !RowHoldsThat(row, sent) then after == row
            else match answer
              case Reset => after == Some(AccountState(None, noted("reset"), Some(now + 60_000)))
              case AlreadyRedeemed => after == Some(AccountState(None, noted("already_redeemed"), Some(now + 60_000)))
              case NothingToReset => after == Some(AccountState(None, noted("nothing_to_reset"), None))
              case NoCredit => after == Some(AccountState(None, noted("no_credit"), None))
              case _ =>
                && after.Some? && after.value.lastOutcome == row.value.lastOutcome
                && after.value.cooldownUntil == row.value.cooldownUntil
                && (sentAs != Some("") ==> RowHoldsThat(after, sent))
  {
    if RowHoldsThat(row, sent) {
      var startedAt, account :| RowHolds(row, sent.redeemRequestId, sent.creditId, startedAt, account);
      var saved := SavedMatching(row, sent).value;
      var after := AnswerState(row, sent, answer, sentAs, now);
      if !IsTerminal(answer) && after != row {
        var kept := Annotated(saved, sent, answer, sentAs);
        assert sentAs != Some("") ==>
                 RowHolds(after, kept.redeemRequestId, kept.creditId, kept.startedAt, kept.chatgptAccountId);
      }
    } else if SavedMatching(row, sent).Some? {
      var saved := SavedMatching(row, sent).value;
      assert RowHolds(row, saved.redeemRequestId, saved.creditId, saved.startedAt, saved.chatgptAccountId);
    }
  }

  /** The pair reported to a sender is the one the row then holds under the ids sent, if any. */
  lemma ReportedIsSaved(row: Option<AccountState>, sent: SavedPair, answer: Answer, sentAs: Option<string>, now: int)
    requires sentAs != Some("")
    ensures var after, reported := AnswerState(row, sent, answer, sentAs, now),
                                   ReportedPair(row, sent, answer, sentAs);
            && (reported.Some? <==> RowHoldsThat(after, sent))
            && (reported.Some? ==> PairOf(after) == reported)
  {
    AnswerIsNoted(row, sent, answer, sentAs, now);
    var after := AnswerState(row, sent, answer, sentAs, now);
    if SavedMatching(row, sent).Some? {
      var saved := SavedMatching(row, sent).value;
      assert RowHolds(row, saved.redeemRequestId, saved.creditId, saved.startedAt, saved.chatgptAccountId);
      PairRoundTrip(saved, row.value.inFlight.value);
      PairRoundTrip(Annotated(saved, sent, answer, sentAs), row.value.inFlight.value);
    }
  }

  lemma SpoiltIsCorrupt(row: Option<AccountState>)
    ensures RowIsSpoilt(row) <==> IsCorrupt(row)
  {
    if row.Some? && row.value.inFlight.Some? && ValidInFlight(row.value.inFlight.value).Some? {
      var pair := ValidInFlight(row.value.inFlight.value).value;
      assert RowHolds(row, pair.redeemRequestId, pair.creditId, pair.startedAt, pair.chatgptAccountId);
    }
  }

  // ---------------------------------------------------------------------
  // Answers to sends that read the same pair
  // ---------------------------------------------------------------------

  /** An answer to a send made under `sentAs`, and the time it is written. */
  datatype Write = Write(answer: Answer, sentAs: Option<string>, now: int)

  /** The state once all the answers are written, one after another. */
  function WriteAll(state: Option<AccountState>, completing: SavedPair, writes: seq<Write>): Option<AccountState> {
    if writes == [] then state
    else
      var n := |writes| - 1;
      var w := writes[n];
      AnswerState(WriteAll(state, completing, writes[..n]), completing, w.answer, w.sentAs, w.now)
  }

  function Count(writes: seq<Write>, p: Answer -> bool): nat {
    if writes == [] then 0
    else Count(writes[..|writes| - 1], p) + (if p(writes[|writes| - 1].answer) then 1 else 0)
  }

  predicate AnyTerminal(writes: seq<Write>) {
    Count(writes, IsTerminal) > 0
  }

  function CountUnknown(writes: seq<Write>): nat {
    Count(writes, IsUnknown)
  }

  /** The first account any of the sends was made under. */
  function FirstSender(writes: seq<Write>): Option<string> {
    if writes == [] then None
    else if FirstSender(writes[..|writes| - 1]).Some? then FirstSender(writes[..|writes| - 1])
    else writes[|writes| - 1].sentAs
  }

  /** What the saved pair says about a redemption, once answers are in. */
  datatype Verdict = Cleared | Open(unknownAnswers: nat, refused: bool, account: Option<string>)

  function VerdictOf(state: Option<AccountState>): Verdict {
    if PairOf(state).None? then Cleared
    else
      var pair := PairOf(state).value;
      Open(pair.unknownAnswers, pair.rejectedStatus.Some?, pair.chatgptAccountId)
  }

  /** The verdict apart from the account the pair is bound to. */
  function Settlement(verdict: Verdict): Verdict {
    if verdict.Open? then verdict.(account := None) else verdict
  }

  ghost predicate SendersNamed(writes: seq<Write>) {
    forall i :: 0 <= i < |writes| ==> writes[i].sentAs != Some("")
  }

  /**
   Several sends read the same saved pair and their answers are written in some order. A terminal
   answer clears the pair. Otherwise an unknown one leaves it unrefused, its count raised by exactly
   the number of unknown answers. Otherwise it is marked refused. The pair keeps its identity and age,
   and the account it names; if it names none it is bound to the first of the senders.
   */
  lemma {:induction false} AnswersSettleAlike(state: Option<AccountState>, writes: seq<Write>)
    requires PairOf(state).Some? && SendersNamed(writes) && writes != []
    ensures var read := PairOf(state).value;
            var final := WriteAll(state, read, writes);
            var account := if read.chatgptAccountId.Some? then read.chatgptAccountId else FirstSender(writes);
            && VerdictOf(final) ==
                 (if AnyTerminal(writes) then Cleared
                  else Open(read.unknownAnswers + CountUnknown(writes), CountUnknown(writes) == 0, account))
            && (PairOf(final).Some? ==>
                  Id(PairOf(final).value) == Id(read) && PairOf(final).value.startedAt == read.startedAt)
    decreases |writes|
  {
    var read := PairOf(state).value;
    var n := |writes| - 1;
    var before := WriteAll(state, read, writes[..n]);
    var last := writes[n];
    if n > 0 {
      AnswersSettleAlike(state, writes[..n]);
    }
    OneMoreAnswer(state, before, read, last);
    assert n == 0 ==> FirstSender(writes[..n]).None?;
    assert AnyTerminal(writes) == (AnyTerminal(writes[..n]) || IsTerminal(last.answer));
    assert CountUnknown(writes) == CountUnknown(writes[..n]) + (if IsUnknown(last.answer) then 1 else 0);
    if PairOf(before).Some? && !IsTerminal(last.answer) && !IsRepeatedRefusal(read, last.answer, last.sentAs) {
      assert IsUnknown(last.answer) <==> Refusal(last.answer).None?;
      assert PairOf(before).value.chatgptAccountId
          == if read.chatgptAccountId.Some? then read.chatgptAccountId else FirstSender(writes[..n]);
    }
  }

  lemma OneMoreAnswer(state: Option<AccountState>, before: Option<AccountState>, read: SavedPair, w: Write)
    requires PairOf(state) == Some(read) && w.sentAs != Some("")
    requires before == state || VerdictOf(before).Cleared? || PairOf(before).Some?
    requires PairOf(before).Some? ==> Id(PairOf(before).value) == Id(read)
    ensures var after := AnswerState(before, read, w.answer, w.sentAs, w.now);
            && (IsTerminal(w.answer) || PairOf(before).None? ==> PairOf(after).None?)
            && (!IsTerminal(w.answer) && PairOf(before).Some? ==>
                  if IsRepeatedRefusal(read, w.answer, w.sentAs) then after == before
                  else PairOf(after) == Some(Annotated(PairOf(before).value, read, w.answer, w.sentAs)))
  {
    if PairOf(before).Some? {
      PairRoundTrip(PairOf(before).value, before.value.inFlight.value);
      PairRoundTrip(Annotated(PairOf(before).value, read, w.answer, w.sentAs), before.value.inFlight.value);
    }
  }

  /** Writing the same answers in another order settles the pair alike, but for the account it is bound to. */
  lemma AnswerOrderIsIrrelevant(state: Option<AccountState>, a: seq<Write>, b: seq<Write>)
    requires PairOf(state).Some? && SendersNamed(a) && multiset(a) == multiset(b)
    ensures Settlement(VerdictOf(WriteAll(state, PairOf(state).value, a)))
         == Settlement(VerdictOf(WriteAll(state, PairOf(state).value, b)))
  {
    CountPermutes(a, b, IsTerminal);
    CountPermutes(a, b, IsUnknown);
    assert |multiset(a)| == |multiset(b)|;
    if a != [] {
      SendersPermute(a, b);
      AnswersSettleAlike(state, a);
      AnswersSettleAlike(state, b);
    }
  }

  lemma SendersPermute(a: seq<Write>, b: seq<Write>)
    requires multiset(a) == multiset(b)
    ensures SendersNamed(a) ==> SendersNamed(b)
    ensures SendersAgree(a) ==> SendersAgree(b)
  {
    forall i | 0 <= i < |b| ensures b[i] in a {
      assert b[i] in multiset(a);
    }
  }

  /** No two of the sends were made under different accounts. */
  ghost predicate SendersAgree(writes: seq<Write>) {
    forall v, w :: v in writes && w in writes && v.sentAs.Some? && w.sentAs.Some? ==> v.sentAs == w.sentAs
  }

  lemma {:induction false} FirstSenderIs(writes: seq<Write>)
    ensures FirstSender(writes).None? <==> forall w :: w in writes ==> w.sentAs.None?
    ensures FirstSender(writes).Some? ==> exists w :: w in writes && w.sentAs == FirstSender(writes)
    ensures writes != [] && writes[0].sentAs.Some? ==> FirstSender(writes) == writes[0].sentAs
    decreases |writes|
  {
    if writes != [] {
      var n := |writes| - 1;
      FirstSenderIs(writes[..n]);
      assert writes[n] in writes && forall w :: w in writes ==> w in writes[..n] || w == writes[n];
      assert forall w :: w in writes[..n] ==> w in writes;
    }
  }

  /**
   The account too is the same in every order exactly when a terminal answer clears the pair, or the
   pair named an account when it was read, or no two sends were made under different accounts.
   */
  lemma VerdictIsOrderFreeExactlyWhen(state: Option<AccountState>, a: seq<Write>)
    requires PairOf(state).Some? && SendersNamed(a)
    ensures (forall b :: multiset(b) == multiset(a) ==>
               VerdictOf(WriteAll(state, PairOf(state).value, b)) == VerdictOf(WriteAll(state, PairOf(state).value, a)))
       <==> AnyTerminal(a) || PairOf(state).value.chatgptAccountId.Some? || SendersAgree(a)
  {
    var read := PairOf(state).value;
    if AnyTerminal(a) || read.chatgptAccountId.Some? || SendersAgree(a) {
      forall b | multiset(b) == multiset(a)
        ensures VerdictOf(WriteAll(state, read, b)) == VerdictOf(WriteAll(state, read, a))
      {
        SameVerdict(state, a, b);
      }
    } else {
      var v, w :| v in a && w in a && v.sentAs.Some? && w.sentAs.Some? && v.sentAs != w.sentAs;
      var x := PutFirst(a, v);
      var y := PutFirst(a, w);
      BoundToFirst(state, a, x);
      BoundToFirst(state, a, y);
    }
  }

  lemma SameVerdict(state: Option<AccountState>, a: seq<Write>, b: seq<Write>)
    requires PairOf(state).Some? && SendersNamed(a) && multiset(b) == multiset(a)
    requires AnyTerminal(a) || PairOf(state).value.chatgptAccountId.Some? || SendersAgree(a)
    ensures VerdictOf(WriteAll(state, PairOf(state).value, b)) == VerdictOf(WriteAll(state, PairOf(state).value, a))
  {
    AnswerOrderIsIrrelevant(state, a, b);
    CountPermutes(a, b, IsTerminal);
    assert |multiset(a)| == |multiset(b)|;
    if a != [] {
      SendersPermute(a, b);
      AnswersSettleAlike(state, a);
      AnswersSettleAlike(state, b);
      FirstSenderIs(a);
      FirstSenderIs(b);
      forall w ensures w in a <==> w in b { assert w in a <==> w in multiset(a); assert w in b <==> w in multiset(b); }
    }
  }

  /** The writes with one of them moved to the front. */
  lemma PutFirst(a: seq<Write>, w: Write) returns (b: seq<Write>)
    requires w in a
    ensures multiset(b) == multiset(a) && b != [] && b[0] == w
  {
    var i :| 0 <= i < |a| && a[i] == w;
    b := [w] + a[..i] + a[i + 1..];
    assert a == a[..i] + [w] + a[i + 1..];
  }

  lemma BoundToFirst(state: Option<AccountState>, a: seq<Write>, b: seq<Write>)
    requires PairOf(state).Some? && PairOf(state).value.chatgptAccountId.None? && SendersNamed(a) && !AnyTerminal(a)
    requires multiset(b) == multiset(a) && b != [] && b[0].sentAs.Some?
    ensures var verdict := VerdictOf(WriteAll(state, PairOf(state).value, b));
            verdict.Open? && verdict.account == b[0].sentAs
  {
    CountPermutes(a, b, IsTerminal);
    SendersPermute(a, b);
    AnswersSettleAlike(state, b);
    FirstSenderIs(b);
  }

  /** Two unknown answers to a pair without an account, sent as "a" and as "b": the first written binds it. */
  lemma FirstAnswerBindsThePair()
    ensures var read := SavedPair("req", "credit", 0, None, None, 0);
            var state := Some(AccountState(Some(ToRaw(read)), None, None));
            var a, b := Write(Ambiguous, Some("a"), 1), Write(Ambiguous, Some("b"), 1);
            && VerdictOf(WriteAll(state, read, [a, b])) == Open(2, false, Some("a"))
            && VerdictOf(WriteAll(state, read, [b, a])) == Open(2, false, Some("b"))
  {
    var read := SavedPair("req", "credit", 0, None, None, 0);
    var state := Some(AccountState(Some(ToRaw(read)), None, None));
    var a, b := Write(Ambiguous, Some("a"), 1), Write(Ambiguous, Some("b"), 1);
    PairRoundTrip(read, ToRaw(read));
    TwoUnknown(state, a, b);
    TwoUnknown(state, b, a);
  }

  lemma TwoUnknown(state: Option<AccountState>, a: Write, b: Write)
    requires PairOf(state).Some? && PairOf(state).value.chatgptAccountId.None?
    requires a.answer.Ambiguous? && b.answer.Ambiguous? && a.sentAs.Some? && SendersNamed([a, b])
    ensures VerdictOf(WriteAll(state, PairOf(state).value, [a, b]))
         == Open(PairOf(state).value.unknownAnswers + 2, false, a.sentAs)
  {
    var writes := [a, b];
    AnswersSettleAlike(state, writes);
    FirstSenderIs(writes);
    CountOfTwo(a, b, IsUnknown);
    CountOfTwo(a, b, IsTerminal);
  }

  lemma CountOfTwo(a: Write, b: Write, p: Answer -> bool)
    ensures Count([a, b], p) == (if p(a.answer) then 1 else 0) + (if p(b.answer) then 1 else 0)
  {
    assert [a, b][..1] == [a] && [a][..0] == [];
    assert Count([a], p) == Count([], p) + (if p(a.answer) then 1 else 0);
  }

  lemma {:induction false} CountPermutes(a: seq<Write>, b: seq<Write>, p: Answer -> bool)
    requires multiset(a) == multiset(b)
    ensures Count(a, p) == Count(b, p)
  {
    assert |multiset(a)| == |multiset(b)|;
    if a != [] {
      var n := |a| - 1;
      assert a[n] in multiset(b);
      var i :| 0 <= i < |b| && b[i] == a[n];
      RemoveFromBoth(a, b, i);
      CountPermutes(a[..n], b[..i] + b[i + 1..], p);
      CountSplit(b, i, p);
    }
  }

  lemma RemoveFromBoth(a: seq<Write>, b: seq<Write>, i: nat)
    requires multiset(a) == multiset(b) && i < |b| && a != [] && b[i] == a[|a| - 1]
    ensures multiset(a[..|a| - 1]) == multiset(b[..i] + b[i + 1..])
  {
    assert a == a[..|a| - 1] + [a[|a| - 1]];
    assert b == b[..i] + [b[i]] + b[i + 1..];
    assert multiset(a) == multiset(a[..|a| - 1]) + multiset{b[i]};
    assert multiset(b) == multiset(b[..i] + b[i + 1..]) + multiset{b[i]};
    assert multiset(a[..|a| - 1]) == multiset(a) - multiset{b[i]};
    assert multiset(b[..i] + b[i + 1..]) == multiset(b) - multiset{b[i]};
  }

  lemma CountSplit(b: seq<Write>, i: nat, p: Answer -> bool)
    requires i < |b|
    ensures Count(b, p) == Count(b[..i] + b[i + 1..], p) + (if p(b[i].answer) then 1 else 0)
  {
    assert b[..i + 1][..i] == b[..i];
    assert b[..i + 1] + b[i + 1..] == b;
    CountJoin(b[..i + 1], b[i + 1..], p);
    CountJoin(b[..i], b[i + 1..], p);
  }

  lemma {:induction false} CountJoin(a: seq<Write>, b: seq<Write>, p: Answer -> bool)
    ensures Count(a + b, p) == Count(a, p) + Count(b, p)
  {
    if b == [] {
      assert a + b == a;
    } else {
      var n := |b| - 1;
      CountJoin(a, b[..n], p);
      assert (a + b)[..|a| + n] == a + b[..n];
    }
  }
}
