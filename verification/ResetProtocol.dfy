/**
 Reset-credit redemption as a protocol: any number of attempts, in any processes, read, claim,
 send and settle the saved pair of one account row, against a server that dedupes on it.

 One action is one atomic piece of `runResetCreditRedemption`, or one act of the server: the unlocked
 read, the locked claim, the dispatch of the request, its service, the arrival of the answer or the
 client's timeout, and the write of the answer. Everything may interleave: an answer may be lost, and
 a request whose sender gave up waiting may still be served. All that is assumed of the server is that
 it never refuses a pair it consumed.
 */
module ResetProtocol {
  import opened Options
  import opened ResetCredits

  datatype Phase =
    | Started
    | Corrupted
    | NewSpend
    | Ready(pair: SavedPair)
    | Sent(pair: SavedPair)
    | Answered(pair: SavedPair, answer: Answer)
    | Done

  /** The request of an attempt, as the server has it. */
  datatype Request = Unserved(id: PairId) | Served(id: PairId, answer: Answer)

  /** One run of the redemption, signed in as `account` throughout. */
  datatype Attempt = Attempt(account: string, retry: bool, phase: Phase)

  datatype World = World(
    now: int,
    state: Option<AccountState>,
    attempts: map<nat, Attempt>,
    requests: map<nat, Request>,
    consumed: set<PairId>,
    requestIds: set<string>,
    ledger: Ledger)

  /**
   Bookkeeping that no code reads: the account each minted request id was minted under, the pairs
   whose terminal answer was written, the pairs replaced because they belong to another account,
   the pairs replaced while an attempt that read them was unfinished or their record counted an unknown
   answer, and the pairs consumed by a request whose attempt had finished without its answer.
   */
  datatype Ledger = Ledger(
    mintedAs: map<string, string>,
    settled: set<PairId>,
    foreign: set<PairId>,
    hasty: set<PairId>,
    late: set<PairId>)

  datatype Action =
    | Tick(to: int)
    | Begin(a: nat, account: string, retry: bool)
    | Read(a: nat)
    | WriteOff(a: nat)
    | GiveUp(a: nat)
    | ClaimPair(a: nat, credit: Option<string>, uuid: string)
    | Dispatch(a: nat)
    | Serve(a: nat, answer: Answer, consumes: bool)
    | Receive(a: nat)
    | TimeOut(a: nat)
    | WriteAnswer(a: nat)

  predicate HasPair(phase: Phase) {
    phase.Ready? || phase.Sent? || phase.Answered?
  }

  predicate Holds(attempt: Attempt, id: PairId) {
    HasPair(attempt.phase) && Id(attempt.phase.pair) == id
  }

  /** Some attempt that read the pair `id` has not finished. */
  predicate Unfinished(w: World, id: PairId) {
    exists a :: a in w.attempts && Holds(w.attempts[a], id)
  }

  /** Some request for the pair `id` may still reach the server. */
  predicate Outstanding(w: World, id: PairId) {
    exists a :: a in w.requests && w.requests[a] == Unserved(id)
  }

  /** Some attempt has an answer other than a refusal for `id` that it has yet to write. */
  predicate Pending(w: World, id: PairId) {
    exists a :: a in w.attempts && IsPending(w, a, id)
  }

  predicate IsPending(w: World, a: nat, id: PairId)
    requires a in w.attempts
  {
    Holds(w.attempts[a], id) && AnswerFor(w, a).Some? && Refusal(AnswerFor(w, a).value).None?
  }

  /**
   Every answer to the saved pair so far was a known one. A pair that names no account has had no answer
   written at all, for the first one binds it.
   */
  predicate AllAnswersKnown(pair: SavedPair) {
    pair.unknownAnswers == 0 || pair.chatgptAccountId.None?
  }

  /** The answer the attempt has, or that waits for it. */
  function AnswerFor(w: World, a: nat): Option<Answer>
    requires a in w.attempts
  {
    match w.attempts[a].phase
    case Answered(_, answer) => Some(answer)
    case Sent(_) => if a in w.requests && w.requests[a].Served? then Some(w.requests[a].answer) else None
    case _ => None
  }

  function Saved(w: World): Option<SavedPair> {
    PairOf(w.state)
  }

  // ---------------------------------------------------------------------
  // Steps
  // ---------------------------------------------------------------------

  predicate Enabled(w: World, action: Action) {
    match action
    case Tick(to) => to >= w.now
    case Begin(a, account, _) => a !in w.attempts && account != ""
    case Read(a) => a in w.attempts && w.attempts[a].phase.Started?
    case WriteOff(a) => a in w.attempts && w.attempts[a].phase.Corrupted?
    case GiveUp(a) => a in w.attempts && !w.attempts[a].phase.Sent? && !w.attempts[a].phase.Answered?
    case ClaimPair(a, credit, uuid) =>
      && a in w.attempts && w.attempts[a].phase.NewSpend?
      && credit != Some("") && uuid != "" && uuid !in w.requestIds
    case Dispatch(a) =>
      && a in w.attempts && w.attempts[a].phase.Ready?
      && BelongsTo(w.attempts[a].phase.pair, Some(w.attempts[a].account))
    case Serve(a, answer, consumes) =>
      && a in w.requests && w.requests[a].Unserved?
      && (Refusal(answer).Some? ==> !consumes && w.requests[a].id !in w.consumed)
    case Receive(a) =>
      a in w.attempts && w.attempts[a].phase.Sent? && a in w.requests && w.requests[a].Served?
    case TimeOut(a) => a in w.attempts && w.attempts[a].phase.Sent?
    case WriteAnswer(a) => a in w.attempts && w.attempts[a].phase.Answered?
  }

  predicate Finished(w: World, a: nat) {
    a in w.attempts ==> w.attempts[a].phase.Done?
  }

  /** What an attempt does next on reading the state. */
  function AfterRead(attempt: Attempt, decision: Decision): Phase {
    match decision
    case Corrupt => if attempt.phase.Started? then Corrupted else Done
    case Cooldown(_) => Done
    case Claim(pair) => Ready(pair)
    case ExpiredUnreconciled(pair) =>
      if attempt.retry then Ready(pair)
      else if MayReplaceExpiredPair(pair, Some(attempt.account)) then NewSpend
      else Done
    case Fresh => if attempt.retry then Done else NewSpend
  }

  function AfterClaim(decision: Decision): Phase {
    if decision.Claim? then Ready(decision.pair) else Done
  }

  function Moved(w: World, a: nat, phase: Phase): map<nat, Attempt>
    requires a in w.attempts
  {
    w.attempts[a := w.attempts[a].(phase := phase)]
  }

  function Next(w: World, action: Action): World
    requires Enabled(w, action)
  {
    match action
    case Tick(to) => w.(now := to)
    case Begin(a, account, retry) => w.(attempts := w.attempts[a := Attempt(account, retry, Started)])
    case GiveUp(a) => w.(attempts := Moved(w, a, Done))
    case Read(a) => w.(attempts := Moved(w, a, AfterRead(w.attempts[a], Inspect(w.state, w.now))))
    case WriteOff(a) =>
      var decision := Inspect(w.state, w.now);
      w.(attempts := Moved(w, a, AfterRead(w.attempts[a], decision)),
         state := if decision.Corrupt? then Some(WrittenOff(w.state, w.now)) else w.state)
    case ClaimPair(a, credit, uuid) =>
      var account := w.attempts[a].account;
      w.(attempts := Moved(w, a, AfterClaim(ClaimDecision(w.state, w.now, credit, Some(account), uuid))),
         state := ClaimState(w.state, w.now, credit, Some(account), uuid),
         requestIds := w.requestIds + {uuid},
         ledger := if Mints(w.state, w.now, credit, Some(account)) then Minted(w, account, uuid) else w.ledger)
    case Dispatch(a) =>
      var pair := w.attempts[a].phase.pair;
      w.(attempts := Moved(w, a, Sent(pair)), requests := w.requests[a := Unserved(Id(pair))])
    case Serve(a, answer, consumes) =>
      var id := w.requests[a].id;
      w.(requests := w.requests[a := Served(id, answer)],
         consumed := if consumes then w.consumed + {id} else w.consumed,
         ledger := if consumes && id !in w.consumed && Finished(w, a)
                   then w.ledger.(late := w.ledger.late + {id}) else w.ledger)
    case Receive(a) =>
      w.(attempts := Moved(w, a, Answered(w.attempts[a].phase.pair, w.requests[a].answer)))
    case TimeOut(a) => w.(attempts := Moved(w, a, Answered(w.attempts[a].phase.pair, Ambiguous)))
    case WriteAnswer(a) =>
      var pair, answer := w.attempts[a].phase.pair, w.attempts[a].phase.answer;
      w.(attempts := Moved(w, a, Done),
         state := AnswerState(w.state, pair, answer, Some(w.attempts[a].account), w.now),
         ledger := if IsTerminal(answer) then w.ledger.(settled := w.ledger.settled + {Id(pair)}) else w.ledger)
  }

  /** The books once a pair is minted under `account`, replacing the saved one if there is one. */
  function Minted(w: World, account: string, uuid: string): Ledger {
    var l := w.ledger.(mintedAs := w.ledger.mintedAs[uuid := account]);
    if Saved(w).None? then l
    else
      var pair := Saved(w).value;
      if !BelongsTo(pair, Some(account)) then l.(foreign := l.foreign + {Id(pair)})
      else if Unfinished(w, Id(pair)) || !AllAnswersKnown(pair) then l.(hasty := l.hasty + {Id(pair)})
      else l
  }

  /** A row nobody is redeeming yet: empty, or with a pair left over, itself the only one consumed if any. */
  predicate Starting(w: World) {
    && w.attempts == map[]
    && w.requests == map[]
    && w.ledger == Ledger(map[], {}, {}, {}, {})
    && (forall id :: id in w.consumed ==> Saved(w).Some? && id == Id(Saved(w).value))
    && (Saved(w).Some? ==> Saved(w).value.redeemRequestId in w.requestIds)
    && (Saved(w).Some? && Saved(w).value.rejectedStatus.Some? ==> w.consumed == {})
  }

  // ---------------------------------------------------------------------
  // Runs
  // ---------------------------------------------------------------------

  predicate IsRun(w: World, actions: seq<Action>)
    decreases |actions|
  {
    actions == [] || (Enabled(w, actions[0]) && IsRun(Next(w, actions[0]), actions[1..]))
  }

  function After(w: World, actions: seq<Action>): World
    requires IsRun(w, actions)
    decreases |actions|
  {
    if actions == [] then w else After(Next(w, actions[0]), actions[1..])
  }

  // ---------------------------------------------------------------------
  // The saved pair across one action
  // ---------------------------------------------------------------------

  lemma SavedAfterClaim(w: World, action: Action)
    requires Enabled(w, action) && action.ClaimPair?
    ensures var account := w.attempts[action.a].account;
            account != "" ==>
              Saved(Next(w, action))
                == if Mints(w.state, w.now, action.credit, Some(account))
                   then Some(MintedPair(w.now, action.credit.value, Some(account), action.uuid))
                   else Saved(w)
  {
    var account := w.attempts[action.a].account;
    if action.credit.Some? && account != "" {
      var minted := MintedPair(w.now, action.credit.value, Some(account), action.uuid);
      PairRoundTrip(minted, ToRaw(minted));
    }
  }

  lemma SavedAfterAnswer(w: World, action: Action)
    requires Enabled(w, action) && action.WriteAnswer? && w.attempts[action.a].account != ""
    ensures var attempt := w.attempts[action.a];
            var pair, answer, sentAs := attempt.phase.pair, attempt.phase.answer, Some(attempt.account);
            Saved(Next(w, action))
              == if SavedMatching(w.state, pair).None? then Saved(w)
                 else if IsTerminal(answer) then None
                 else if IsRepeatedRefusal(pair, answer, sentAs) then Saved(w)
                 else Some(Annotated(Saved(w).value, pair, answer, sentAs))
  {
    var attempt := w.attempts[action.a];
    if Saved(w).Some? {
      var next := Annotated(Saved(w).value, attempt.phase.pair, attempt.phase.answer, Some(attempt.account));
      PairRoundTrip(Saved(w).value, w.state.value.inFlight.value);
      PairRoundTrip(next, ToRaw(next));
    }
  }

  /** Nothing but a mint and a written answer changes the saved pair. */
  lemma SavedOtherwise(w: World, action: Action)
    requires Enabled(w, action) && !action.ClaimPair? && !action.WriteAnswer?
    ensures Saved(Next(w, action)) == Saved(w)
  {
  }

  // ---------------------------------------------------------------------
  // Refusals and consumption
  // ---------------------------------------------------------------------

  /** Every account signs in under a name and every request id in use is on record. */
  ghost predicate Recorded(w: World) {
    && (forall a :: a in w.attempts ==> w.attempts[a].account != "")
    && (Saved(w).Some? ==> Saved(w).value.redeemRequestId in w.requestIds)
    && (forall id :: id in w.consumed ==> id.redeemRequestId in w.requestIds)
    && (forall a :: a in w.attempts && HasPair(w.attempts[a].phase)
          ==> w.attempts[a].phase.pair.redeemRequestId in w.requestIds)
    && (forall a :: a in w.requests ==> w.requests[a].id.redeemRequestId in w.requestIds)
  }

  /** A request is that of an attempt that has sent, and for the pair the attempt holds. */
  ghost predicate Matched(w: World) {
    && (forall a :: a in w.requests ==> a in w.attempts && !BeforeSending(w.attempts[a].phase))
    && (forall a :: a in w.requests && HasPair(w.attempts[a].phase) ==>
          w.requests[a].id == Id(w.attempts[a].phase.pair))
    && (forall a :: a in w.attempts && w.attempts[a].phase.Sent? ==> a in w.requests)
  }

  /** A request still unserved belongs to an attempt that waits for it or timed out. */
  ghost predicate TimedOutOnly(w: World) {
    forall a :: a in w.requests && w.requests[a].Unserved? && a in w.attempts && w.attempts[a].phase.Answered? ==>
      w.attempts[a].phase.answer == Ambiguous
  }

  predicate BeforeSending(phase: Phase) {
    phase.Started? || phase.Corrupted? || phase.NewSpend? || phase.Ready?
  }

  /** An attempt that read the saved pair saw no more unknown answers than it has now. */
  ghost predicate CountsBehind(w: World) {
    Saved(w).Some? ==>
      forall a :: a in w.attempts && Holds(w.attempts[a], Id(Saved(w).value))
        ==> w.attempts[a].phase.pair.unknownAnswers <= Saved(w).value.unknownAnswers
  }

  /** The attempt carries a refusal that would be recorded on `saved` if it were written now. */
  predicate WouldRefuse(w: World, a: nat, saved: SavedPair)
    requires a in w.attempts
  {
    && Holds(w.attempts[a], Id(saved))
    && AnswerFor(w, a).Some? && Refusal(AnswerFor(w, a).value).Some?
    && w.attempts[a].phase.pair.unknownAnswers == saved.unknownAnswers
  }

  /**
   A refusal on record, or about to be, speaks the truth unless a contrary answer is still unwritten or
   the pair was consumed late.
   */
  ghost predicate RefusalsHonest(w: World) {
    Saved(w).Some? && Id(Saved(w).value) in w.consumed - w.ledger.late && !Pending(w, Id(Saved(w).value)) ==>
      && Saved(w).value.rejectedStatus.None?
      && forall a :: a in w.attempts ==> !WouldRefuse(w, a, Saved(w).value)
  }

  /** The saved pair tells of every request for it that was given up unserved, and so of late consumption. */
  ghost predicate RecordTellsLate(w: World) {
    && w.ledger.late <= w.consumed
    && (Saved(w).Some? && AllAnswersKnown(Saved(w).value) ==>
          && Id(Saved(w).value) !in w.ledger.late
          && forall a :: a in w.requests && a in w.attempts && w.requests[a] == Unserved(Id(Saved(w).value))
               ==> !w.attempts[a].phase.Done?)
  }

  ghost predicate Inv(w: World) {
    && Recorded(w) && Matched(w) && TimedOutOnly(w) && CountsBehind(w)
    && RefusalsHonest(w) && RecordTellsLate(w)
  }

  /** All but one attempt wait for what they waited for. */
  ghost predicate OthersStay(w: World, w': World, a: nat) {
    && (forall b :: b in w.attempts ==> b in w'.attempts)
    && (forall b :: b in w'.attempts && b != a ==>
          b in w.attempts && w'.attempts[b] == w.attempts[b] && AnswerFor(w', b) == AnswerFor(w, b))
  }

  lemma MovePending(w: World, w': World, a: nat, id: PairId)
    requires OthersStay(w, w', a) && a in w'.attempts
    ensures Pending(w, id) && !(a in w.attempts && IsPending(w, a, id)) ==> Pending(w', id)
    ensures IsPending(w', a, id) ==> Pending(w', id)
    ensures Pending(w', id) && !IsPending(w', a, id) ==> Pending(w, id)
  {
    if Pending(w, id) && !(a in w.attempts && IsPending(w, a, id)) {
      var b :| b in w.attempts && IsPending(w, b, id);
      assert IsPending(w', b, id);
    }
    if Pending(w', id) && !IsPending(w', a, id) {
      var b :| b in w'.attempts && IsPending(w', b, id);
      assert IsPending(w, b, id);
    }
  }

  /** What an action does to the saved pair. */
  function SavedNext(w: World, action: Action): Option<SavedPair>
    requires Enabled(w, action)
  {
    match action
    case ClaimPair(a, credit, uuid) =>
      var account := Some(w.attempts[a].account);
      if Mints(w.state, w.now, credit, account) then Some(MintedPair(w.now, credit.value, account, uuid)) else Saved(w)
    case WriteAnswer(a) =>
      var pair, answer, sentAs := w.attempts[a].phase.pair, w.attempts[a].phase.answer, Some(w.attempts[a].account);
      if SavedMatching(w.state, pair).None? then Saved(w)
      else if IsTerminal(answer) then None
      else if IsRepeatedRefusal(pair, answer, sentAs) then Saved(w)
      else Some(Annotated(Saved(w).value, pair, answer, sentAs))
    case _ => Saved(w)
  }

  lemma SavedIsNext(w: World, action: Action)
    requires Recorded(w) && Enabled(w, action)
    ensures Saved(Next(w, action)) == SavedNext(w, action)
  {
    match action
    case ClaimPair(_, _, _) => SavedAfterClaim(w, action);
    case WriteAnswer(_) => SavedAfterAnswer(w, action);
    case _ => SavedOtherwise(w, action);
  }

  /** A pair an attempt comes to hold is the saved one or the one it minted. */
  lemma HoldsNext(w: World, action: Action)
    requires Enabled(w, action) && !action.Tick?
    ensures var w' := Next(w, action);
            action.a in w'.attempts && HasPair(w'.attempts[action.a].phase) ==>
              var pair := w'.attempts[action.a].phase.pair;
              || SavedNext(w, action) == Some(pair)
              || (action.a in w.attempts && HasPair(w.attempts[action.a].phase)
                  && pair == w.attempts[action.a].phase.pair)
  {
  }

  /** The pairs attempts hold afterwards were held before, or are saved. */
  ghost predicate PairsFrom(w: World, w': World) {
    forall b :: b in w'.attempts && HasPair(w'.attempts[b].phase) ==>
      || Saved(w') == Some(w'.attempts[b].phase.pair)
      || (b in w.attempts && HasPair(w.attempts[b].phase) && w'.attempts[b].phase.pair == w.attempts[b].phase.pair)
  }

  /** The requests afterwards were there before, or are for a pair an attempt held. */
  ghost predicate RequestsFrom(w: World, w': World) {
    forall b :: b in w'.requests ==>
      || (b in w.requests && w'.requests[b].id == w.requests[b].id
          && (w'.requests[b].Unserved? ==> w.requests[b].Unserved?))
      || (b in w.attempts && HasPair(w.attempts[b].phase) && w'.requests[b].id == Id(w.attempts[b].phase.pair))
  }

  /** What is consumed was before, or had an unserved request; the books only grow. */
  ghost predicate BooksFrom(w: World, w': World) {
    && (forall id :: id in w'.consumed ==> id in w.consumed || Outstanding(w, id))
    && w.requestIds <= w'.requestIds
    && w.ledger.settled <= w'.ledger.settled && w.ledger.foreign <= w'.ledger.foreign
    && w.ledger.hasty <= w'.ledger.hasty && w.ledger.late <= w'.ledger.late
  }

  lemma StepPairs(w: World, action: Action)
    requires Recorded(w) && Enabled(w, action)
    ensures PairsFrom(w, Next(w, action))
  {
    SavedIsNext(w, action);
    if !action.Tick? {
      HoldsNext(w, action);
      OneMoves(w, action);
      hide Next;
    }
    hide Saved;
  }

  lemma StepRequests(w: World, action: Action)
    requires Enabled(w, action)
    ensures RequestsFrom(w, Next(w, action)) && BooksFrom(w, Next(w, action))
  {
    hide ClaimDecision;
    hide ClaimState;
    hide AnswerState;
    hide Inspect;
    hide Saved;
    if action.Serve? { assert w.requests[action.a] == Unserved(w.requests[action.a].id); }
  }

  lemma StepShape(w: World, action: Action)
    requires Recorded(w) && Enabled(w, action)
    ensures PairsFrom(w, Next(w, action)) && RequestsFrom(w, Next(w, action)) && BooksFrom(w, Next(w, action))
  {
    hide Next;
    StepPairs(w, action);
    StepRequests(w, action);
  }

  lemma StepAccounts(w: World, action: Action)
    requires Recorded(w) && Enabled(w, action)
    ensures forall a :: a in Next(w, action).attempts ==> Next(w, action).attempts[a].account != ""
    ensures SavedNext(w, action).Some? ==> SavedNext(w, action).value.redeemRequestId in Next(w, action).requestIds
  {
  }

  lemma StepKeepsRecorded(w: World, action: Action)
    requires Recorded(w) && Enabled(w, action)
    ensures Recorded(Next(w, action))
  {
    StepShape(w, action);
    StepAccounts(w, action);
    SavedIsNext(w, action);
    hide Next;
    hide Saved;
    hide SavedNext;
  }

  lemma StepKeepsMatched(w: World, action: Action)
    requires Matched(w) && Enabled(w, action)
    ensures Matched(Next(w, action))
  {
    hide Inspect;
    hide Saved;
    hide Mints;
    hide Minted;
    hide ClaimDecision;
    hide ClaimState;
    hide AnswerState;
  }

  lemma StepKeepsCounts(w: World, action: Action)
    requires Recorded(w) && CountsBehind(w) && Enabled(w, action)
    ensures CountsBehind(Next(w, action))
  {
    SavedIsNext(w, action);
    CountGrows(w, action);
    StepPairs(w, action);
    hide Next;
    hide Saved;
    hide SavedNext;
  }

  /** The count of the saved pair never falls, and a new pair is one nobody holds. */
  lemma CountGrows(w: World, action: Action)
    requires Recorded(w) && Enabled(w, action)
    ensures var saved := SavedNext(w, action);
            saved.Some? && saved != Saved(w) ==>
              if Saved(w).Some? && Id(Saved(w).value) == Id(saved.value)
              then Saved(w).value.unknownAnswers <= saved.value.unknownAnswers
              else saved.value.redeemRequestId !in w.requestIds
  {
  }

  lemma StepKeepsTimeOuts(w: World, action: Action)
    requires Matched(w) && TimedOutOnly(w) && Enabled(w, action)
    ensures TimedOutOnly(Next(w, action))
  {
  }

  lemma StepKeepsRecordTellsLate(w: World, action: Action)
    requires Recorded(w) && Matched(w) && TimedOutOnly(w) && RecordTellsLate(w) && Enabled(w, action)
    ensures RecordTellsLate(Next(w, action))
  {
    var w' := Next(w, action);
    SavedIsNext(w, action);
    StepRequests(w, action);
    KnownBefore(w, action);
    ServedLate(w, action);
    if SavedNext(w, action).Some? && AllAnswersKnown(SavedNext(w, action).value) {
      forall b | b in w'.requests && b in w'.attempts && w'.requests[b] == Unserved(Id(SavedNext(w, action).value))
        ensures !w'.attempts[b].phase.Done?
      {
        if w'.attempts[b].phase.Done? { GivenUp(w, action, b); }
      }
    }
    hide Next;
    hide Saved;
    hide SavedNext;
  }

  /** A pair all of whose answers are known is new, or they were all known before. */
  lemma KnownBefore(w: World, action: Action)
    requires Recorded(w) && Enabled(w, action)
    ensures var saved := SavedNext(w, action);
            saved.Some? && AllAnswersKnown(saved.value) ==>
              || saved.value.redeemRequestId !in w.requestIds
              || (Saved(w).Some? && Id(Saved(w).value) == Id(saved.value) && AllAnswersKnown(Saved(w).value))
  {
  }

  /** What is consumed late had an unserved request of an attempt that had finished. */
  lemma ServedLate(w: World, action: Action)
    requires Matched(w) && Enabled(w, action) && w.ledger.late <= w.consumed
    ensures var w' := Next(w, action);
            && w'.ledger.late <= w'.consumed
            && forall id :: id in w'.ledger.late && id !in w.ledger.late ==>
                 SavedNext(w, action) == Saved(w)
                 && exists b :: b in w.requests && b in w.attempts && w.requests[b] == Unserved(id)
                                && w.attempts[b].phase.Done?
  {
    hide Saved;
    if action.Serve? {
      assert w.requests[action.a] == Unserved(w.requests[action.a].id);
    } else {
      NothingConsumed(w, action);
      hide Next;
    }
  }

  /** A request given up unserved was so before, unless its unknown answer is written now, and counted. */
  lemma GivenUp(w: World, action: Action, b: nat)
    requires Matched(w) && TimedOutOnly(w) && Enabled(w, action)
    requires b in Next(w, action).requests && Next(w, action).requests[b].Unserved?
    requires b in Next(w, action).attempts && Next(w, action).attempts[b].phase.Done?
    ensures var id := Next(w, action).requests[b].id;
            && b in w.requests && b in w.attempts && w.requests[b] == Unserved(id)
            && (w.attempts[b].phase.Done?
                || (SavedNext(w, action).Some? && Id(SavedNext(w, action).value) == id ==>
                      !AllAnswersKnown(SavedNext(w, action).value)))
  {
    hide Inspect;
    hide ClaimDecision;
    hide ClaimState;
    hide AnswerState;
    hide Minted;
  }

  lemma OneMoves(w: World, action: Action)
    requires Enabled(w, action) && !action.Tick?
    ensures OthersStay(w, Next(w, action), action.a)
  {
  }

  /** An attempt's contrary answer is not forgotten before it is written, and no refusal comes from nowhere. */
  lemma MoverStays(w: World, action: Action, saved: SavedPair)
    requires Matched(w) && Enabled(w, action) && !action.Tick? && !action.Serve? && !action.WriteAnswer?
    ensures var w', a := Next(w, action), action.a;
            a in w'.attempts ==>
              && (a in w.attempts && IsPending(w, a, Id(saved)) ==> IsPending(w', a, Id(saved)))
              && (WouldRefuse(w', a, saved) ==> a in w.attempts && WouldRefuse(w, a, saved))
  {
  }

  /** Honest refusals stay honest if nothing is consumed, no contrary answer lost and no refusal added. */
  lemma HonestStays(w: World, w': World, a: nat)
    requires RefusalsHonest(w) && OthersStay(w, w', a) && Saved(w') == Saved(w)
    requires w'.consumed == w.consumed && w'.ledger.late == w.ledger.late
    requires Saved(w).Some? && a in w'.attempts ==>
               && (a in w.attempts && IsPending(w, a, Id(Saved(w).value)) ==> IsPending(w', a, Id(Saved(w).value)))
               && (WouldRefuse(w', a, Saved(w).value) ==> a in w.attempts && WouldRefuse(w, a, Saved(w).value))
    ensures RefusalsHonest(w')
  {
    hide Saved;
    if Saved(w).Some? && Pending(w, Id(Saved(w).value)) {
      var b :| b in w.attempts && IsPending(w, b, Id(Saved(w).value));
      assert IsPending(w', b, Id(Saved(w).value));
    }
  }

  lemma ReadKeepsHonest(w: World, action: Action)
    requires Inv(w) && Enabled(w, action)
    requires !action.Tick? && !action.Serve? && !action.WriteAnswer? && !action.ClaimPair?
    ensures RefusalsHonest(Next(w, action))
  {
    OneMoves(w, action);
    SavedIsNext(w, action);
    if Saved(w).Some? { MoverStays(w, action, Saved(w).value); }
    NothingConsumed(w, action);
    hide Next;
    HonestStays(w, Next(w, action), action.a);
  }

  lemma NothingConsumed(w: World, action: Action)
    requires Enabled(w, action) && !action.Serve?
    ensures Next(w, action).consumed == w.consumed && Next(w, action).ledger.late == w.ledger.late
  {
  }

  lemma ClaimKeepsHonest(w: World, action: Action)
    requires Inv(w) && Enabled(w, action) && action.ClaimPair?
    ensures RefusalsHonest(Next(w, action))
  {
    OneMoves(w, action);
    SavedIsNext(w, action);
    NothingConsumed(w, action);
    if MintsAt(w, action) {
      assert PairId(action.uuid, action.credit.value) !in w.consumed;
    } else {
      if Saved(w).Some? { MoverStays(w, action, Saved(w).value); }
      hide Next;
      HonestStays(w, Next(w, action), action.a);
    }
  }

  lemma ServeKeepsHonest(w: World, action: Action)
    requires Inv(w) && Enabled(w, action) && action.Serve?
    ensures RefusalsHonest(Next(w, action))
  {
    OneMoves(w, action);
    SavedIsNext(w, action);
    var w', a := Next(w, action), action.a;
    if Saved(w).Some? {
      var id := Id(Saved(w).value);
      ServedMover(w, action, Saved(w).value);
      if w.requests[a].id == id && action.consumes && id !in w.consumed {
        if !w.attempts[a].phase.Done? { assert IsPending(w', a, id); }
      } else if Pending(w, id) {
        var b :| b in w.attempts && IsPending(w, b, id);
        assert IsPending(w', b, id);
      }
    }
  }

  lemma ServedMover(w: World, action: Action, saved: SavedPair)
    requires Matched(w) && TimedOutOnly(w) && Enabled(w, action) && action.Serve?
    ensures var w', a, id := Next(w, action), action.a, Id(saved);
            && (IsPending(w, a, id) ==> IsPending(w', a, id))
            && (WouldRefuse(w', a, saved) && id in w.consumed ==> WouldRefuse(w, a, saved))
            && (w.requests[a].id == id && Refusal(action.answer).None? && !w.attempts[a].phase.Done? ==>
                  IsPending(w', a, id))
  {
  }

  /** A written answer withdraws the refusals it contradicts, and a refusal is written only if it is honest. */
  lemma AnswerKeepsHonest(w: World, action: Action)
    requires Inv(w) && Enabled(w, action) && action.WriteAnswer?
    ensures RefusalsHonest(Next(w, action))
  {
    OneMoves(w, action);
    SavedIsNext(w, action);
    NothingConsumed(w, action);
    var w', a := Next(w, action), action.a;
    assert w'.attempts[a].phase.Done?;
    hide Next;
    hide Saved;
    if Saved(w').Some? {
      var id := Id(Saved(w').value);
      MovePending(w, w', a, id);
      WrittenAnswer(w, w', a);
    }
  }

  lemma WrittenAnswer(w: World, w': World, a: nat)
    requires Inv(w) && a in w.attempts && w.attempts[a].phase.Answered?
    requires OthersStay(w, w', a) && a in w'.attempts && w'.attempts[a].phase.Done?
    requires Saved(w') == SavedNext(w, WriteAnswer(a)) && Saved(w').Some?
    requires w'.consumed == w.consumed && w'.ledger.late == w.ledger.late
    requires Pending(w, Id(Saved(w').value)) && !IsPending(w, a, Id(Saved(w').value)) ==>
               Pending(w', Id(Saved(w').value))
    ensures RefusalsHonest(w')
  {
    hide Recorded;
    hide Matched;
    hide TimedOutOnly;
  }

  lemma TickKeepsInv(w: World, to: int)
    requires Inv(w)
    ensures Inv(w.(now := to))
  {
    var w' := w.(now := to);
    assert Saved(w') == Saved(w);
    forall a | a in w.attempts ensures AnswerFor(w', a) == AnswerFor(w, a) {
    }
    assert forall id, a :: a in w.attempts && IsPending(w, a, id) ==> IsPending(w', a, id);
  }

  lemma StepKeepsInv(w: World, action: Action)
    requires Inv(w) && Enabled(w, action)
    ensures Inv(Next(w, action))
  {
    StepKeepsRecorded(w, action);
    StepKeepsMatched(w, action);
    StepKeepsTimeOuts(w, action);
    StepKeepsCounts(w, action);
    StepKeepsRecordTellsLate(w, action);
    hide RecordTellsLate;
    hide Recorded;
    hide Matched;
    hide RefusalsHonest;
    hide CountsBehind;
    hide TimedOutOnly;
    match action
    case Tick(to) => TickKeepsInv(w, to);
    case ClaimPair(_, _, _) => ClaimKeepsHonest(w, action);
    case Serve(_, _, _) => ServeKeepsHonest(w, action);
    case WriteAnswer(_) => AnswerKeepsHonest(w, action);
    case _ => ReadKeepsHonest(w, action);
  }

  lemma {:induction false} RunKeepsInv(w: World, actions: seq<Action>)
    requires Inv(w) && IsRun(w, actions)
    ensures Inv(After(w, actions))
    decreases |actions|
  {
    if actions != [] {
      StepKeepsInv(w, actions[0]);
      RunKeepsInv(Next(w, actions[0]), actions[1..]);
    }
  }

  lemma StartingHasInv(w: World)
    requires Starting(w)
    ensures Inv(w) && Accounted(w)
    ensures w.state.None? ==> Orderly(w) && NamedAsMinted(w)
  {
  }

  /**
   In every run, a saved pair marked refused whose record counts no unknown answer was never consumed by
   the server and has no request that still could be served, once no attempt that read it is unfinished.
   */
  lemma RefusedPairWasNeverConsumed(w: World, actions: seq<Action>)
    requires Starting(w) && IsRun(w, actions)
    ensures var w' := After(w, actions);
            Saved(w').Some? && Saved(w').value.rejectedStatus.Some? && AllAnswersKnown(Saved(w').value)
            && !Unfinished(w', Id(Saved(w').value))
            ==> Id(Saved(w').value) !in w'.consumed && !Outstanding(w', Id(Saved(w').value))
  {
    StartingHasInv(w);
    RunKeepsInv(w, actions);
    var w' := After(w, actions);
    if Saved(w').Some? && Saved(w').value.rejectedStatus.Some? && AllAnswersKnown(Saved(w').value) {
      if !Unfinished(w', Id(Saved(w').value)) { KnownRefusalIsTrue(w'); }
    }
  }

  lemma KnownRefusalIsTrue(w: World)
    requires Inv(w) && Saved(w).Some? && Saved(w).value.rejectedStatus.Some? && AllAnswersKnown(Saved(w).value)
    requires !Unfinished(w, Id(Saved(w).value))
    ensures Id(Saved(w).value) !in w.consumed && !Outstanding(w, Id(Saved(w).value))
  {
    var id := Id(Saved(w).value);
    PendingIsUnfinished(w, id);
    forall a | a in w.requests ensures w.requests[a] != Unserved(id) {
      assert a in w.attempts && !Holds(w.attempts[a], id);
    }
  }

  /**
   Whatever the record counts, a pair marked refused that no unfinished attempt read was consumed, if at
   all, by a request served after its attempt had finished without the answer.
   */
  lemma RefusedPairWasConsumedLateIfAtAll(w: World, actions: seq<Action>)
    requires Starting(w) && IsRun(w, actions)
    ensures var w' := After(w, actions);
            Saved(w').Some? && Saved(w').value.rejectedStatus.Some? && !Unfinished(w', Id(Saved(w').value))
            ==> Id(Saved(w').value) !in w'.consumed - w'.ledger.late
  {
    StartingHasInv(w);
    RunKeepsInv(w, actions);
    var w' := After(w, actions);
    if Saved(w').Some? { PendingIsUnfinished(w', Id(Saved(w').value)); }
  }

  lemma PendingIsUnfinished(w: World, id: PairId)
    ensures Pending(w, id) ==> Unfinished(w, id)
  {
    if Pending(w, id) {
      var a :| a in w.attempts && IsPending(w, a, id);
      assert Holds(w.attempts[a], id);
    }
  }

  // ---------------------------------------------------------------------
  // No spent credit is lost
  // ---------------------------------------------------------------------

  /** The pair `id` is saved, or its terminal answer was written, or it was dropped for a reason on the books. */
  predicate Known(w: World, id: PairId) {
    || (Saved(w).Some? && Id(Saved(w).value) == id)
    || id in w.ledger.settled
    || id in w.ledger.foreign
    || id in w.ledger.hasty
  }

  ghost predicate Accounted(w: World) {
    && (forall id :: id in w.consumed ==> Known(w, id))
    && (forall a :: a in w.attempts && HasPair(w.attempts[a].phase) ==> Known(w, Id(w.attempts[a].phase.pair)))
    && (forall a :: a in w.requests && w.requests[a].Unserved? ==> Known(w, w.requests[a].id))
  }

  /**
   Replacing a pair under its own account drops an unspent pair without a request that could still be
   served, if no unfinished attempt read it and its record counts no unknown answer.
   */
  lemma CleanReplacementDropsUnspentPair(w: World, action: Action)
    requires Inv(w) && Enabled(w, action) && action.ClaimPair? && Saved(w).Some?
    requires Mints(w.state, w.now, action.credit, Some(w.attempts[action.a].account))
    requires BelongsTo(Saved(w).value, Some(w.attempts[action.a].account))
    requires !Unfinished(w, Id(Saved(w).value)) && AllAnswersKnown(Saved(w).value)
    ensures Id(Saved(w).value) !in w.consumed && !Outstanding(w, Id(Saved(w).value))
  {
    KnownRefusalIsTrue(w);
  }

  /** The pair is in use nowhere: not saved, read by no unfinished attempt, requested no more and unspent. */
  ghost predicate Gone(w: World, id: PairId) {
    && id.redeemRequestId in w.requestIds
    && (Saved(w).Some? ==> Id(Saved(w).value) != id)
    && !Unfinished(w, id) && !Outstanding(w, id)
    && id !in w.consumed
  }

  lemma GoneStays(w: World, action: Action, id: PairId)
    requires Inv(w) && Gone(w, id) && Enabled(w, action)
    ensures Gone(Next(w, action), id)
  {
    StepShape(w, action);
    SavedIsNext(w, action);
    NotSavedAgain(w, action, id);
    hide Next;
    hide Saved;
    hide SavedNext;
    UnusedStays(w, Next(w, action), id);
  }

  lemma NotSavedAgain(w: World, action: Action, id: PairId)
    requires Enabled(w, action) && id.redeemRequestId in w.requestIds
    requires Saved(w).Some? ==> Id(Saved(w).value) != id
    ensures SavedNext(w, action).Some? ==> Id(SavedNext(w, action).value) != id
  {
  }

  /** A pair that is not saved and that nobody holds or has requested comes into use again nowhere. */
  lemma UnusedStays(w: World, w': World, id: PairId)
    requires PairsFrom(w, w') && RequestsFrom(w, w') && BooksFrom(w, w')
    requires !Unfinished(w, id) && !Outstanding(w, id) && id !in w.consumed
    requires Saved(w').Some? ==> Id(Saved(w').value) != id
    ensures !Unfinished(w', id) && !Outstanding(w', id) && id !in w'.consumed
  {
    hide Saved;
    forall a | a in w'.attempts ensures !Holds(w'.attempts[a], id) {
      assert a in w.attempts ==> !Holds(w.attempts[a], id);
    }
    forall a | a in w'.requests ensures w'.requests[a] != Unserved(id) {
      assert a in w.requests ==> w.requests[a] != Unserved(id);
      assert a in w.attempts ==> !Holds(w.attempts[a], id);
    }
  }

  lemma {:induction false} GoneForGood(w: World, actions: seq<Action>, id: PairId)
    requires Inv(w) && Gone(w, id) && IsRun(w, actions)
    ensures Gone(After(w, actions), id)
    decreases |actions|
  {
    hide Gone;
    hide Next;
    hide Enabled;
    hide Inv;
    if actions != [] {
      GoneStays(w, actions[0], id);
      StepKeepsInv(w, actions[0]);
      GoneForGood(Next(w, actions[0]), actions[1..], id);
    }
  }

  /**
   A pair replaced under its own account while no attempt that read it is unfinished and its record counts
   no unknown answer stays unspent whatever happens after.
   */
  lemma ReplacedPairStaysUnspent(w: World, action: Action, later: seq<Action>)
    requires Inv(w) && Enabled(w, action) && MintsAt(w, action) && Saved(w).Some?
    requires BelongsTo(Saved(w).value, Some(w.attempts[action.a].account))
    requires !Unfinished(w, Id(Saved(w).value)) && AllAnswersKnown(Saved(w).value)
    requires IsRun(Next(w, action), later)
    ensures Id(Saved(w).value) !in After(Next(w, action), later).consumed
  {
    var id := Id(Saved(w).value);
    CleanReplacementDropsUnspentPair(w, action);
    assert forall a :: a in w.attempts ==> !Holds(w.attempts[a], id);
    assert forall a :: a in w.requests ==> w.requests[a] != Unserved(id);
    SavedAfterClaim(w, action);
    StepKeepsInv(w, action);
    GoneForGood(Next(w, action), later, id);
  }

  /** A pair is forgotten only when it is replaced unspent and out of use. */
  lemma KnownStays(w: World, action: Action, id: PairId)
    requires Inv(w) && Enabled(w, action) && Known(w, id)
    ensures Known(Next(w, action), id) || (!Unfinished(w, id) && !Outstanding(w, id) && id !in w.consumed)
  {
    StepRequests(w, action);
    SavedIsNext(w, action);
    if Saved(w).Some? && Id(Saved(w).value) == id {
      if action.ClaimPair? && MintsAt(w, action) {
        if BelongsTo(Saved(w).value, Some(w.attempts[action.a].account)) && !Unfinished(w, id) {
          if AllAnswersKnown(Saved(w).value) { CleanReplacementDropsUnspentPair(w, action); }
        }
      }
    }
  }

  lemma StepKeepsAccounted(w: World, action: Action)
    requires Inv(w) && Accounted(w) && Enabled(w, action)
    ensures Accounted(Next(w, action))
  {
    StepShape(w, action);
    var w' := Next(w, action);
    forall id | Known(w, id) ensures Known(w', id) || (!Unfinished(w, id) && !Outstanding(w, id) && id !in w.consumed) {
      KnownStays(w, action, id);
    }
    hide Next;
    hide Inv;
    BooksAccount(w, w');
  }

  lemma BooksAccount(w: World, w': World)
    requires PairsFrom(w, w') && RequestsFrom(w, w') && BooksFrom(w, w') && Accounted(w)
    requires forall id :: Known(w, id) ==>
               Known(w', id) || (!Unfinished(w, id) && !Outstanding(w, id) && id !in w.consumed)
    ensures Accounted(w')
  {
    hide Saved;
    forall a | a in w.attempts && HasPair(w.attempts[a].phase) ensures Known(w', Id(w.attempts[a].phase.pair)) {
      assert Holds(w.attempts[a], Id(w.attempts[a].phase.pair));
    }
    forall id | Outstanding(w, id) ensures Known(w', id) {
      var a :| a in w.requests && w.requests[a] == Unserved(id);
    }
    forall a | a in w'.requests && w'.requests[a].Unserved? ensures Known(w', w'.requests[a].id) {
      if a in w.requests && w'.requests[a].id == w.requests[a].id && w.requests[a].Unserved? {
        assert w.requests[a] == Unserved(w.requests[a].id);
        assert Outstanding(w, w'.requests[a].id);
      }
    }
  }

  /**
   Conservation. In every run, every pair the server consumed is still saved, or its terminal
   answer was written by some attempt, or it was replaced because the row is now signed in to
   another account, or it was replaced while an attempt that had read it was unfinished or its record
   counted an unknown answer.
   */
  lemma {:induction false} NoSpentCreditIsLost(w: World, actions: seq<Action>)
    requires Inv(w) && Accounted(w) && IsRun(w, actions)
    ensures Accounted(After(w, actions))
    decreases |actions|
  {
    if actions != [] {
      StepKeepsInv(w, actions[0]);
      StepKeepsAccounted(w, actions[0]);
      NoSpentCreditIsLost(Next(w, actions[0]), actions[1..]);
    }
  }

  // ---------------------------------------------------------------------
  // Cooldown, minting and the account a pair is bound to
  // ---------------------------------------------------------------------

  /** No unreadable pair, and no cooldown still running beside a saved pair. */
  ghost predicate Orderly(w: World) {
    && !IsCorrupt(w.state)
    && !(w.state.Some? && w.state.value.inFlight.Some?
         && w.state.value.cooldownUntil.Some? && w.state.value.cooldownUntil.value > w.now)
  }

  lemma StepKeepsOrderly(w: World, action: Action)
    requires Inv(w) && Orderly(w) && Enabled(w, action)
    ensures Orderly(Next(w, action))
  {
    match action
    case ClaimPair(_, _, _) => SavedAfterClaim(w, action);
    case WriteAnswer(_) => SavedAfterAnswer(w, action);
    case _ => SavedOtherwise(w, action);
  }

  /** A running cooldown and a saved pair never coexist, and no pair is ever written that cannot be read. */
  lemma {:induction false} CooldownExcludesPair(w: World, actions: seq<Action>)
    requires Inv(w) && Orderly(w) && IsRun(w, actions)
    ensures Orderly(After(w, actions))
    decreases |actions|
  {
    if actions != [] {
      StepKeepsInv(w, actions[0]);
      StepKeepsOrderly(w, actions[0]);
      CooldownExcludesPair(Next(w, actions[0]), actions[1..]);
    }
  }

  /** The action writes the answer to the pair that is saved. */
  predicate AnswersSaved(w: World, action: Action) {
    && Enabled(w, action) && action.WriteAnswer?
    && Saved(w).Some? && Id(Saved(w).value) == Id(w.attempts[action.a].phase.pair)
  }

  /** Nothing is saved, and every attempt that looks is told to wait until then: it ends and changes nothing. */
  ghost predicate WaitsUntil(w: World, until: int) {
    && Saved(w).None? && Inspect(w.state, w.now) == Cooldown(until)
    && (forall credit, account, uuid :: ClaimDecision(w.state, w.now, credit, account, uuid) == Cooldown(until))
    && forall action :: Enabled(w, action) && (action.Read? || action.ClaimPair?) ==>
         Next(w, action).attempts[action.a].phase.Done? && Next(w, action).state == w.state
  }

  /** A cooldown to that moment with no pair beside it. */
  predicate CoolingDown(w: World, until: int) {
    w.state.Some? && w.state.value.inFlight.None? && w.state.value.cooldownUntil == Some(until)
  }

  lemma {:induction false} StaysCool(w: World, actions: seq<Action>, until: int)
    requires IsRun(w, actions) && CoolingDown(w, until) && After(w, actions).now < until
    ensures CoolingDown(After(w, actions), until) && w.now <= After(w, actions).now
    ensures After(w, actions).ledger.mintedAs == w.ledger.mintedAs
    decreases |actions|
  {
    if actions != [] {
      var next := Next(w, actions[0]);
      TimeGoesOn(next, actions[1..]);
      StaysCool(next, actions[1..], until);
    }
  }

  lemma {:induction false} TimeGoesOn(w: World, actions: seq<Action>)
    requires IsRun(w, actions)
    ensures w.now <= After(w, actions).now
    decreases |actions|
  {
    if actions != [] { TimeGoesOn(Next(w, actions[0]), actions[1..]); }
  }

  lemma CoolingWaits(w: World, until: int)
    requires CoolingDown(w, until) && w.now < until
    ensures WaitsUntil(w, until)
  {
  }

  /**
   Once the answer that the saved pair spent its credit is written, every attempt that looks at the row in the
   next sixty seconds is told to wait for their end, and no run mints a pair before that.
   */
  lemma SpendStartsCooldown(w: World, action: Action, later: seq<Action>)
    requires AnswersSaved(w, action) && IsRun(Next(w, action), later)
    requires w.attempts[action.a].phase.answer in {Reset, AlreadyRedeemed}
    requires After(Next(w, action), later).now < w.now + 60_000
    ensures WaitsUntil(After(Next(w, action), later), w.now + 60_000)
    ensures After(Next(w, action), later).ledger.mintedAs == w.ledger.mintedAs
  {
    StaysCool(Next(w, action), later, w.now + 60_000);
    CoolingWaits(After(Next(w, action), later), w.now + 60_000);
  }

  /**
   A terminal answer to the saved pair leaves nothing saved. At that same moment a claim with a credit mints a
   new pair for it exactly when the answer says that no credit was spent.
   */
  lemma UnspentMayBeClaimedAtOnce(w: World, action: Action, credit: string, account: string, uuid: string)
    requires AnswersSaved(w, action)
    requires w.attempts[action.a].phase.answer in {Reset, AlreadyRedeemed, NothingToReset, NoCredit}
    ensures var next := Next(w, action);
            && Saved(next).None? && next.now == w.now
            && (ClaimDecision(next.state, next.now, Some(credit), Some(account), uuid)
                  == Claim(SavedPair(uuid, credit, w.now, Some(account), None, 0))
                <==> w.attempts[action.a].phase.answer in {NothingToReset, NoCredit})
  {
  }

  /** A client error that is not one of those that only put the request off. */
  predicate RefusesForGood(answer: Answer) {
    && answer.HttpError? && 400 <= answer.status <= 499
    && answer.status != 408 && answer.status != 409 && answer.status != 425 && answer.status != 429
  }

  /**
   Any other answer leaves the pair saved under its identity. A refusal for good marks it, unless an unknown
   answer came in since the pair was read; any other answer counts as unknown and withdraws the mark.
   */
  lemma AnswerWithoutOutcome(w: World, action: Action)
    requires Inv(w) && AnswersSaved(w, action)
    requires w.attempts[action.a].phase.answer !in {Reset, AlreadyRedeemed, NothingToReset, NoCredit}
    ensures var read, answer := w.attempts[action.a].phase.pair, w.attempts[action.a].phase.answer;
            var saved, next := Saved(w).value, Saved(Next(w, action));
            && next.Some? && Id(next.value) == Id(saved) && next.value.startedAt == saved.startedAt
            && if !RefusesForGood(answer) then
                 next.value.unknownAnswers == saved.unknownAnswers + 1 && next.value.rejectedStatus.None?
               else
                 && next.value.unknownAnswers == saved.unknownAnswers
                 && next.value.rejectedStatus
                    == if saved.unknownAnswers == read.unknownAnswers
                          && (read.chatgptAccountId.None? || read.rejectedStatus != Some(answer.status))
                       then Some(answer.status) else saved.rejectedStatus
  {
    SavedAfterAnswer(w, action);
  }

  predicate MintsAt(w: World, action: Action)
    requires Enabled(w, action)
  {
    action.ClaimPair? && Mints(w.state, w.now, action.credit, Some(w.attempts[action.a].account))
  }

  predicate SettlesAt(w: World, action: Action, id: PairId)
    requires Enabled(w, action)
  {
    && action.WriteAnswer?
    && Id(w.attempts[action.a].phase.pair) == id
    && IsTerminal(w.attempts[action.a].phase.answer)
  }

  predicate NoMint(w: World, actions: seq<Action>)
    requires IsRun(w, actions)
    decreases |actions|
  {
    actions == [] || (!MintsAt(w, actions[0]) && NoMint(Next(w, actions[0]), actions[1..]))
  }

  predicate SettledWithin(w: World, actions: seq<Action>, id: PairId)
    requires IsRun(w, actions)
    decreases |actions|
  {
    actions != [] && (SettlesAt(w, actions[0], id) || SettledWithin(Next(w, actions[0]), actions[1..], id))
  }

  /** A saved pair keeps its identity, its age and any account it names until it is settled or replaced. */
  lemma {:induction false} PairSurvives(w: World, actions: seq<Action>)
    requires Inv(w) && Saved(w).Some? && IsRun(w, actions)
    requires NoMint(w, actions) && !SettledWithin(w, actions, Id(Saved(w).value))
    ensures var before, after := Saved(w).value, Saved(After(w, actions));
            && after.Some?
            && Id(after.value) == Id(before) && after.value.startedAt == before.startedAt
            && (before.chatgptAccountId.Some? ==> after.value.chatgptAccountId == before.chatgptAccountId)
    decreases |actions|
  {
    if actions != [] {
      var action := actions[0];
      StepKeepsInv(w, action);
      match action {
        case ClaimPair(_, _, _) => SavedAfterClaim(w, action);
        case WriteAnswer(_) => SavedAfterAnswer(w, action);
        case _ => SavedOtherwise(w, action);
      }
      PairSurvives(Next(w, action), actions[1..]);
    }
  }

  /**
   Two successive mints are separated by a terminal answer to the first pair, or by at least the
   in-flight window together with a recorded refusal or a change of account.
   */
  lemma MintsAreSeparated(w: World, first: Action, middle: seq<Action>, second: Action)
    requires Inv(w) && Enabled(w, first) && MintsAt(w, first)
    requires IsRun(Next(w, first), middle) && NoMint(Next(w, first), middle)
    requires Enabled(After(Next(w, first), middle), second) && MintsAt(After(Next(w, first), middle), second)
    ensures var id := PairId(first.uuid, first.credit.value);
            var w' := After(Next(w, first), middle);
            || SettledWithin(Next(w, first), middle, id)
            || (&& Saved(w').Some? && Id(Saved(w').value) == id
                && w'.now - w.now >= RESET_IN_FLIGHT_TTL_MS
                && (|| Saved(w').value.rejectedStatus.Some?
                    || w'.attempts[second.a].account != w.attempts[first.a].account))
  {
    StepKeepsInv(w, first);
    SavedAfterClaim(w, first);
    if !SettledWithin(Next(w, first), middle, PairId(first.uuid, first.credit.value)) {
      PairSurvives(Next(w, first), middle);
    }
  }

  /** Every pair anyone holds names the account it was minted under. */
  ghost predicate NamedAsMinted(w: World) {
    && w.ledger.mintedAs.Keys <= w.requestIds
    && (Saved(w).Some? ==> Names(w, Saved(w).value))
    && (forall a :: a in w.attempts && HasPair(w.attempts[a].phase) ==> Names(w, w.attempts[a].phase.pair))
  }

  predicate Names(w: World, pair: SavedPair) {
    && pair.redeemRequestId in w.ledger.mintedAs
    && pair.chatgptAccountId == Some(w.ledger.mintedAs[pair.redeemRequestId])
  }

  lemma StepKeepsNames(w: World, action: Action)
    requires Inv(w) && NamedAsMinted(w) && Enabled(w, action)
    ensures NamedAsMinted(Next(w, action))
    ensures forall r :: r in w.ledger.mintedAs ==>
              r in Next(w, action).ledger.mintedAs
              && Next(w, action).ledger.mintedAs[r] == w.ledger.mintedAs[r]
  {
    StepShape(w, action);
    SavedIsNext(w, action);
    SavedIsNamed(w, action);
    hide Next;
    hide Saved;
    hide SavedNext;
  }

  lemma SavedIsNamed(w: World, action: Action)
    requires NamedAsMinted(w) && Enabled(w, action)
    ensures var w' := Next(w, action);
            && w'.ledger.mintedAs.Keys <= w'.requestIds
            && (forall r :: r in w.ledger.mintedAs ==>
                  r in w'.ledger.mintedAs && w'.ledger.mintedAs[r] == w.ledger.mintedAs[r])
            && (SavedNext(w, action).Some? ==> Names(w', SavedNext(w, action).value))
  {
  }

  lemma {:induction false} NamesAreFinal(w: World, actions: seq<Action>)
    requires Inv(w) && NamedAsMinted(w) && IsRun(w, actions)
    ensures Inv(After(w, actions)) && NamedAsMinted(After(w, actions))
    ensures forall r :: r in w.ledger.mintedAs ==>
              r in After(w, actions).ledger.mintedAs
              && After(w, actions).ledger.mintedAs[r] == w.ledger.mintedAs[r]
    decreases |actions|
  {
    if actions != [] {
      StepKeepsInv(w, actions[0]);
      StepKeepsNames(w, actions[0]);
      NamesAreFinal(Next(w, actions[0]), actions[1..]);
    }
  }

  /** From an empty row, any two sends of one pair, however far apart, go out under the same account. */
  lemma SendsOfAPairShareItsAccount(w: World, before: seq<Action>, send: Action, between: seq<Action>, resend: Action)
    requires Starting(w) && w.state.None?
    requires IsRun(w, before) && send.Dispatch? && Enabled(After(w, before), send)
    requires IsRun(Next(After(w, before), send), between)
    requires resend.Dispatch? && Enabled(After(Next(After(w, before), send), between), resend)
    ensures var w1 := After(w, before);
            var w2 := After(Next(w1, send), between);
            Id(w1.attempts[send.a].phase.pair) == Id(w2.attempts[resend.a].phase.pair)
            ==> w1.attempts[send.a].account == w2.attempts[resend.a].account
  {
    StartingHasInv(w);
    NamesAreFinal(w, before);
    var w1 := After(w, before);
    StepKeepsInv(w1, send);
    StepKeepsNames(w1, send);
    NamesAreFinal(Next(w1, send), between);
  }

  // ---------------------------------------------------------------------
  // Why an unfinished attempt and a late request matter
  // ---------------------------------------------------------------------

  lemma {:induction false} RunExtends(w: World, actions: seq<Action>, action: Action)
    requires IsRun(w, actions) && Enabled(After(w, actions), action)
    ensures IsRun(w, actions + [action])
    ensures After(w, actions + [action]) == Next(After(w, actions), action)
    decreases |actions|
  {
    hide Next;
    hide Enabled;
    var all := actions + [action];
    if actions == [] {
      assert all[1..] == [];
    } else {
      RunExtends(Next(w, actions[0]), actions[1..], action);
      assert all[1..] == actions[1..] + [action];
    }
  }

  /** A run with one more step, whose outcome is given. */
  lemma Then(w: World, actions: seq<Action>, before: World, action: Action, after: World)
    returns (longer: seq<Action>)
    requires IsRun(w, actions) && After(w, actions) == before
    requires Enabled(before, action) && Next(before, action) == after
    ensures IsRun(w, longer) && After(w, longer) == after
  {
    hide Next;
    hide Enabled;
    RunExtends(w, actions, action);
    longer := actions + [action];
  }

  /**
   From any state a saved pair that is marked refused and unspent can be spent as it stands by a
   request for it that is still unserved; late, if its attempt has finished.
   */
  lemma UnservedRequestSpendsRefusedPair(w: World, a: nat, answer: Answer)
    requires Inv(w) && Saved(w).Some? && Saved(w).value.rejectedStatus.Some?
    requires a in w.requests && w.requests[a] == Unserved(Id(Saved(w).value))
    requires Id(Saved(w).value) !in w.consumed && Refusal(answer).None?
    ensures Enabled(w, Serve(a, answer, true))
    ensures var w' := Next(w, Serve(a, answer, true));
            && Saved(w') == Saved(w) && Id(Saved(w).value) in w'.consumed
            && (w.attempts[a].phase.Done? ==> Id(Saved(w).value) in w'.ledger.late)
            && (!Unfinished(w, Id(Saved(w).value)) ==> !Unfinished(w', Id(Saved(w).value)))
  {
  }

  /** An attempt that is ready to send the pair makes such a request. */
  lemma ReadyAttemptSpendsRefusedPair(w: World, a: nat, answer: Answer)
    requires Inv(w) && Saved(w).Some? && Saved(w).value.rejectedStatus.Some? && a in w.attempts
    requires w.attempts[a].phase.Ready? && Id(w.attempts[a].phase.pair) == Id(Saved(w).value)
    requires BelongsTo(w.attempts[a].phase.pair, Some(w.attempts[a].account))
    requires Id(Saved(w).value) !in w.consumed && Refusal(answer).None?
    ensures IsRun(w, [Dispatch(a), Serve(a, answer, true)])
    ensures var w' := After(w, [Dispatch(a), Serve(a, answer, true)]);
            Saved(w') == Saved(w) && Id(Saved(w).value) in w'.consumed
  {
    var w1 := Next(w, Dispatch(a));
    StepKeepsInv(w, Dispatch(a));
    SavedOtherwise(w, Dispatch(a));
    UnservedRequestSpendsRefusedPair(w1, a, answer);
    TwoSteps(w, Dispatch(a), Serve(a, answer, true));
  }

  lemma TwoSteps(w: World, first: Action, second: Action)
    requires Enabled(w, first) && Enabled(Next(w, first), second)
    ensures IsRun(w, [first, second]) && After(w, [first, second]) == Next(Next(w, first), second)
  {
    hide Next;
    hide Enabled;
    assert [first, second][1..] == [second];
    assert [second][1..] == [];
    assert IsRun(Next(w, first), [second]);
    assert After(Next(w, first), [second]) == After(Next(Next(w, first), second), []);
  }

  function With(pair: SavedPair): Option<AccountState> {
    Some(AccountState(Some(ToRaw(pair)), None, None))
  }

  /** An attempt signed in to the account the pair names. */
  function At(pair: SavedPair, phase: Phase): Attempt
    requires pair.chatgptAccountId.Some?
  {
    Attempt(pair.chatgptAccountId.value, false, phase)
  }

  /** The pair of a row that reads it back whole, bound to an account. */
  predicate Bound(w: World, pair: SavedPair) {
    w.state == With(pair) && Readable(pair) && pair.chatgptAccountId.Some?
  }

  /** The pair once another answer to it was unknown, and once it was refused. */
  function Unsure(pair: SavedPair): SavedPair {
    pair.(unknownAnswers := pair.unknownAnswers + 1, rejectedStatus := None)
  }

  function RefusedAs(pair: SavedPair, status: int): SavedPair {
    pair.(rejectedStatus := Some(status))
  }

  /** An attempt begins and reads the pair while it is young. */
  lemma ReadIsReached(from: World, actions: seq<Action>, w: World, a: nat, pair: SavedPair)
    returns (run: seq<Action>)
    requires IsRun(from, actions) && After(from, actions) == w && Bound(w, pair)
    requires a !in w.attempts && IsYoung(pair, w.now)
    ensures IsRun(from, run) && After(from, run) == w.(attempts := w.attempts[a := At(pair, Ready(pair))])
  {
    var w1 := w.(attempts := w.attempts[a := At(pair, Started)]);
    var w2 := w.(attempts := w.attempts[a := At(pair, Ready(pair))]);
    PairRoundTrip(pair, ToRaw(pair));
    run := Then(from, actions, w, Begin(a, pair.chatgptAccountId.value, false), w1);
    assert w1.attempts[a := At(pair, Ready(pair))] == w2.attempts;
    run := Then(from, run, w1, Read(a), w2);
  }

  function Sending(w: World, a: nat, pair: SavedPair): World
    requires pair.chatgptAccountId.Some?
  {
    w.(attempts := w.attempts[a := At(pair, Sent(pair))], requests := w.requests[a := Unserved(Id(pair))])
  }

  lemma SendIsReached(from: World, actions: seq<Action>, w: World, a: nat, pair: SavedPair)
    returns (run: seq<Action>)
    requires IsRun(from, actions) && After(from, actions) == w && pair.chatgptAccountId.Some?
    requires a in w.attempts && w.attempts[a] == At(pair, Ready(pair))
    ensures IsRun(from, run) && After(from, run) == Sending(w, a, pair)
  {
    run := Then(from, actions, w, Dispatch(a), Sending(w, a, pair));
  }

  /** Given up by its attempt, which wrote an unknown answer, the request is still unserved. */
  function TimedOut(w: World, a: nat, pair: SavedPair): World
    requires pair.chatgptAccountId.Some?
  {
    w.(attempts := w.attempts[a := At(pair, Done)], requests := w.requests[a := Unserved(Id(pair))],
       state := With(Unsure(pair)))
  }

  lemma TimeOutIsReached(from: World, actions: seq<Action>, w: World, a: nat, pair: SavedPair)
    returns (run: seq<Action>)
    requires IsRun(from, actions) && After(from, actions) == w && Bound(w, pair)
    requires a in w.attempts && w.attempts[a] == At(pair, Ready(pair))
    ensures IsRun(from, run) && After(from, run) == TimedOut(w, a, pair)
  {
    var w1 := Sending(w, a, pair);
    var w2 := w1.(attempts := w.attempts[a := At(pair, Answered(pair, Ambiguous))]);
    run := SendIsReached(from, actions, w, a, pair);
    assert w1.attempts[a := At(pair, Answered(pair, Ambiguous))] == w2.attempts;
    run := Then(from, run, w1, TimeOut(a), w2);
    PairRoundTrip(pair, ToRaw(pair));
    assert w2.attempts[a := At(pair, Done)] == w.attempts[a := At(pair, Done)];
    run := Then(from, run, w2, WriteAnswer(a), TimedOut(w, a, pair));
  }

  /** The attempt's request was refused, and the refusal put on record. */
  function WithRefusal(w: World, a: nat, pair: SavedPair, status: int): World
    requires pair.chatgptAccountId.Some?
  {
    w.(attempts := w.attempts[a := At(pair, Done)], requests := w.requests[a := Served(Id(pair), HttpError(status))],
       state := With(RefusedAs(pair, status)))
  }

  /** A request for the saved pair, unchanged since it was read, is refused and the answer written. */
  lemma RefusalIsReached(from: World, actions: seq<Action>, w: World, a: nat, pair: SavedPair, status: int)
    returns (run: seq<Action>)
    requires IsRun(from, actions) && After(from, actions) == w && Bound(w, pair) && pair.rejectedStatus.None?
    requires a in w.attempts && w.attempts[a] == At(pair, Sent(pair))
    requires a in w.requests && w.requests[a] == Unserved(Id(pair)) && Id(pair) !in w.consumed
    requires IsDefiniteRefusal(status)
    ensures IsRun(from, run) && After(from, run) == WithRefusal(w, a, pair, status)
  {
    var w1 := w.(requests := w.requests[a := Served(Id(pair), HttpError(status))]);
    var w2 := w1.(attempts := w.attempts[a := At(pair, Answered(pair, HttpError(status)))]);
    run := Then(from, actions, w, Serve(a, HttpError(status), false), w1);
    run := Then(from, run, w1, Receive(a), w2);
    RefusalIsWritten(w2, a, pair, status);
    assert w2.attempts[a := At(pair, Done)] == w.attempts[a := At(pair, Done)];
    hide Next;
    run := Then(from, run, w2, WriteAnswer(a), WithRefusal(w, a, pair, status));
  }

  lemma RefusalIsWritten(w: World, a: nat, pair: SavedPair, status: int)
    requires Bound(w, pair) && pair.rejectedStatus.None? && IsDefiniteRefusal(status)
    requires a in w.attempts && w.attempts[a] == At(pair, Answered(pair, HttpError(status)))
    ensures Next(w, WriteAnswer(a))
         == w.(attempts := w.attempts[a := At(pair, Done)], state := With(RefusedAs(pair, status)))
  {
    PairRoundTrip(pair, ToRaw(pair));
  }

  /** One attempt holds the saved pair, and nothing was sent yet. */
  function Held(pair: SavedPair, now: int, books: Ledger): World
    requires pair.chatgptAccountId.Some?
  {
    World(now, With(pair), map[0 := At(pair, Ready(pair))], map[], {}, {pair.redeemRequestId}, books)
  }

  /** Its request times out, a second one is refused, and then the first lands. */
  function SpentLate(pair: SavedPair, status: int, now: int, books: Ledger): World
    requires pair.chatgptAccountId.Some?
  {
    World(now, With(RefusedAs(Unsure(pair), status)), map[0 := At(pair, Done), 1 := At(pair, Done)],
          map[0 := Served(Id(pair), Reset), 1 := Served(Id(pair), HttpError(status))],
          {Id(pair)}, {pair.redeemRequestId}, books.(late := books.late + {Id(pair)}))
  }

  lemma LateSpendIsReached(from: World, actions: seq<Action>, pair: SavedPair, status: int, now: int, books: Ledger)
    returns (run: seq<Action>)
    requires pair.chatgptAccountId.Some? && Readable(pair) && IsYoung(pair, now) && IsDefiniteRefusal(status)
    requires IsRun(from, actions) && After(from, actions) == Held(pair, now, books)
    ensures IsRun(from, run) && After(from, run) == SpentLate(pair, status, now, books)
  {
    var w := Held(pair, now, books);
    var w1 := TimedOut(w, 0, pair);
    var w2 := w1.(attempts := w1.attempts[1 := At(pair, Ready(Unsure(pair)))]);
    var w3 := Sending(w2, 1, Unsure(pair));
    var w4 := WithRefusal(w3, 1, Unsure(pair), status);
    run := TimeOutIsReached(from, actions, w, 0, pair);
    run := ReadIsReached(from, run, w1, 1, Unsure(pair));
    run := SendIsReached(from, run, w2, 1, Unsure(pair));
    run := RefusalIsReached(from, run, w3, 1, Unsure(pair), status);
    LateRequestLands(w, w4, pair, status, now, books);
    hide Next;
    run := Then(from, run, w4, Serve(0, Reset, true), SpentLate(pair, status, now, books));
  }

  lemma LateRequestLands(w: World, w4: World, pair: SavedPair, status: int, now: int, books: Ledger)
    requires pair.chatgptAccountId.Some? && w == Held(pair, now, books)
    requires w4.now == now && w4.state == With(RefusedAs(Unsure(pair), status))
    requires w4.attempts == map[0 := At(pair, Done), 1 := At(pair, Done)]
    requires w4.requests == map[0 := Unserved(Id(pair)), 1 := Served(Id(pair), HttpError(status))]
    requires w4.consumed == {} && w4.requestIds == w.requestIds && w4.ledger == books
    ensures Enabled(w4, Serve(0, Reset, true))
    ensures Next(w4, Serve(0, Reset, true)) == SpentLate(pair, status, now, books)
  {
  }

  /**
   Any refused pair that names an account and counts an unknown answer may have been consumed although
   nobody holds it and no request for it is unserved; under its account it may be replaced once five
   minutes old.
   */
  lemma UnknownAnswerMayHideASpend(pair: SavedPair, later: int) returns (w: World, run: seq<Action>)
    requires Readable(pair) && pair.rejectedStatus.Some? && !AllAnswersKnown(pair)
    requires later >= pair.startedAt + RESET_IN_FLIGHT_TTL_MS
    ensures Starting(w) && IsRun(w, run)
    ensures var w' := After(w, run);
            && w'.now == later && Saved(w') == Some(pair)
            && Id(pair) in w'.consumed && !Unfinished(w', Id(pair)) && !Outstanding(w', Id(pair))
            && Mints(w'.state, w'.now, Some("other"), pair.chatgptAccountId)
  {
    var before := pair.(rejectedStatus := None, unknownAnswers := pair.unknownAnswers - 1);
    var status := pair.rejectedStatus.value;
    var books := Ledger(map[], {}, {}, {}, {});
    assert RefusedAs(Unsure(before), status) == pair;
    w := Held(before, pair.startedAt, books).(attempts := map[]);
    PairRoundTrip(before, ToRaw(before));
    run := ReadIsReached(w, [], w, 0, before);
    run := LateSpendIsReached(w, run, before, status, pair.startedAt, books);
    var spent := SpentLate(before, status, pair.startedAt, books);
    hide IsRun;
    run := Then(w, run, spent, Tick(later), spent.(now := later));
    PairRoundTrip(pair, ToRaw(pair));
  }

  /** Nobody holding it, the pair was never consumed, in whatever run it came to be saved. */
  ghost predicate NeverConsumedAtRest(pair: SavedPair) {
    forall w, actions ::
      (Starting(w) && IsRun(w, actions) && Saved(After(w, actions)) == Some(pair)
       && !Unfinished(After(w, actions), Id(pair)))
      ==> Id(pair) !in After(w, actions).consumed
  }

  /** A refusal on record can be relied on exactly when the record counts no unknown answer or names no account. */
  lemma RefusalIsReliableExactlyWhen(pair: SavedPair)
    requires Readable(pair) && pair.rejectedStatus.Some?
    ensures NeverConsumedAtRest(pair) <==> pair.unknownAnswers == 0 || pair.chatgptAccountId.None?
  {
    if AllAnswersKnown(pair) {
      forall w, actions | Starting(w) && IsRun(w, actions) && Saved(After(w, actions)) == Some(pair)
        && !Unfinished(After(w, actions), Id(pair))
        ensures Id(pair) !in After(w, actions).consumed
      {
        RefusedPairWasNeverConsumed(w, actions);
      }
    } else {
      var w, run := UnknownAnswerMayHideASpend(pair, pair.startedAt + RESET_IN_FLIGHT_TTL_MS);
    }
  }

  /** An empty row at time zero, and the pair one attempt has just minted for it. */
  const EMPTY_ROW := World(0, None, map[], map[], {}, {}, Ledger(map[], {}, {}, {}, {}))
  const PAIR := SavedPair("req", "credit", 0, Some("acct"), None, 0)
  const BOOKS := Ledger(map["req" := "acct"], {}, {}, {}, {})
  const MINTED := Held(PAIR, 0, BOOKS)

  lemma MintIsReached() returns (run: seq<Action>)
    ensures IsRun(EMPTY_ROW, run) && After(EMPTY_ROW, run) == MINTED
  {
    var w1 := EMPTY_ROW.(attempts := map[0 := At(PAIR, Started)]);
    var w2 := EMPTY_ROW.(attempts := map[0 := At(PAIR, NewSpend)]);
    run := Then(EMPTY_ROW, [], EMPTY_ROW, Begin(0, "acct", false), w1);
    run := Then(EMPTY_ROW, run, w1, Read(0), w2);
    run := Then(EMPTY_ROW, run, w2, ClaimPair(0, Some("credit"), "req"), MINTED);
  }

  /**
   From an empty row: a minted pair's request times out, a second attempt is refused, then the first request
   lands. No attempt is unfinished and no request unserved, and the pair is marked refused although the
   server consumed it. Once five minutes old it may be replaced.
   */
  lemma LateRequestHidesASpentCredit(later: int) returns (run: seq<Action>)
    requires later >= RESET_IN_FLIGHT_TTL_MS
    ensures IsRun(EMPTY_ROW, run)
    ensures var w := After(EMPTY_ROW, run);
            && w.now == later
            && Saved(w).Some? && Saved(w).value.rejectedStatus == Some(401)
            && Id(Saved(w).value) in w.consumed * w.ledger.late
            && !Unfinished(w, Id(Saved(w).value)) && !Outstanding(w, Id(Saved(w).value))
            && Mints(w.state, w.now, Some("other"), Some("acct"))
  {
    var w := SpentLate(PAIR, 401, 0, BOOKS);
    var refused := RefusedAs(Unsure(PAIR), 401);
    run := MintIsReached();
    run := LateSpendIsReached(EMPTY_ROW, run, PAIR, 401, 0, BOOKS);
    run := Then(EMPTY_ROW, run, w, Tick(later), w.(now := later));
    hide Next;
    PairRoundTrip(refused, ToRaw(refused));
  }

  /** Two attempts hold the pair; one of them has sent it. */
  const SHARED := MINTED.(attempts := map[0 := At(PAIR, Sent(PAIR)), 1 := At(PAIR, Ready(PAIR))],
                          requests := map[0 := Unserved(Id(PAIR))])

  lemma SharedPairIsReached() returns (run: seq<Action>)
    ensures IsRun(EMPTY_ROW, run) && After(EMPTY_ROW, run) == SHARED
  {
    var w1 := MINTED.(attempts := MINTED.attempts[1 := At(PAIR, Ready(PAIR))]);
    run := MintIsReached();
    run := ReadIsReached(EMPTY_ROW, run, MINTED, 1, PAIR);
    run := SendIsReached(EMPTY_ROW, run, w1, 0, PAIR);
    assert Sending(w1, 0, PAIR) == SHARED;
  }

  /** Then the other, merely unfinished, spends the pair on record as refused; its answer is unwritten. */
  lemma RefusalBesideAnUnwrittenSpend(later: int) returns (run: seq<Action>)
    requires later >= RESET_IN_FLIGHT_TTL_MS
    ensures IsRun(EMPTY_ROW, run)
    ensures var w := After(EMPTY_ROW, run);
            && w.now == later
            && Saved(w).Some? && Saved(w).value.rejectedStatus == Some(401)
            && Saved(w).value.unknownAnswers == 0
            && Id(Saved(w).value) in w.consumed - w.ledger.late
            && Mints(w.state, w.now, Some("other"), Some("acct"))
  {
    var w := WithRefusal(SHARED, 0, PAIR, 401);
    run := SharedPairIsReached();
    run := RefusalIsReached(EMPTY_ROW, run, SHARED, 0, PAIR, 401);
    var w2;
    run, w2 := SpendIsReached(EMPTY_ROW, run, w, 1, PAIR);
    run := Then(EMPTY_ROW, run, w2, Tick(later), w2.(now := later));
    hide Next;
    PairRoundTrip(RefusedAs(PAIR, 401), ToRaw(RefusedAs(PAIR, 401)));
  }

  /** An attempt that is ready sends its pair, and the server consumes it. */
  lemma SpendIsReached(from: World, actions: seq<Action>, w: World, a: nat, pair: SavedPair)
    returns (run: seq<Action>, spent: World)
    requires IsRun(from, actions) && After(from, actions) == w
    requires pair.chatgptAccountId.Some? && a in w.attempts && w.attempts[a] == At(pair, Ready(pair))
    ensures IsRun(from, run) && After(from, run) == spent
    ensures spent == w.(attempts := w.attempts[a := At(pair, Sent(pair))],
                        requests := w.requests[a := Served(Id(pair), Reset)],
                        consumed := w.consumed + {Id(pair)})
  {
    var w1 := Sending(w, a, pair);
    spent := w1.(requests := w1.requests[a := Served(Id(pair), Reset)], consumed := w.consumed + {Id(pair)});
    run := SendIsReached(from, actions, w, a, pair);
    run := Then(from, run, w1, Serve(a, Reset, true), spent);
  }
}
