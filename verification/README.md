# Verified model of the account, limit and request-rewriting core

A Dafny model of the parts of the OpenAI auth plugin that keep state across processes, requests and
time, with proofs of what they keep. Every module stands for one component:

- `EffortPin`: the rewriter that pins the opening reasoning effort of a conversation, remembers each
  change at a user message and re-inserts the changes into every later request.
- `ResetCredits` and `ResetProtocol`: the saved pair of a reset-credit redemption, and the protocol in
  which any number of attempts read, claim, send and settle it against a server that dedupes on it.
- `TokenMerge` and `RefreshProtocol`: how two copies of a credential are merged, and the protocol in
  which processes refresh single-use tokens (section 6 of RFC 6749), save stale snapshots and edit the roster.
- `Normalization`, `StoredTypes`, `AccountRoster`, `AccountStore`, `RosterRuns`, `StoreLocks`,
  `StoreRefinement`, `StorageRoundTrip`: the two files of the account store, how they are normalised and what
  of their declared types survives that, its writers, every sequence and every interleaving of their single
  steps, their relation to the refresh protocol, and the split of a storage into two files and back. `Json` and
  `Text` are the values in those files.
- `RecoveryLatch` and `RecoveryRuns`: the latch of expired rate-limit evidence, and all its runs.
- `LimitProvenance`: where a mark's expiry came from.
- `LimitsLease` and `LeaseRuns`: one process's hold on a namespace's limits, and its runs cut where it waits.
- `Killswitch`: quota floors, the rewrite of older settings into floors, and Retry-After (section 10.2.3 of
  RFC 9110).
- `VaultStream`: the observer that watches an event stream for failures while passing it through.

Objects the program changes in place are classes whose methods are proved against functions of the old
state; what those functions promise is proved as lemmas. Protocols are step relations over a world, and
their results hold in every state of every run.

Where the code does not keep a promise for all inputs, a lemma gives the input and another the exact
condition:

- A saved pair marked refused may have been consumed while another attempt still holds it
  (`ResetProtocol.RefusalBesideAnUnwrittenSpend`). Once nobody does, it can be relied on exactly when its record
  counts no unknown answer, or names no account (`RefusalIsReliableExactlyWhen`): with one counted, the request
  behind it may have been served after the refusal was written (`UnknownAnswerMayHideASpend`,
  `LateRequestHidesASpentCredit`). The code records the refusal, and lets the pair be replaced, whatever the
  count, as long as it did not change since the refused send read it. An attempt that died after its dispatch
  counts as holding the pair.
- The account a pair saved without one is bound to depends on the order of the answers when sends were made
  under different accounts (`ResetCredits.FirstAnswerBindsThePair`, `VerdictIsOrderFreeExactlyWhen`).
- Evidence is used once in a generation unless the generation is left and comes back
  (`RecoveryRuns.ReturningGenerationReuses`, `UsedTwiceOnlyAcrossGenerations`); then any evidence may be used
  again until the latch is exhausted (`MayBeUsedExactlyWhen`).
- When unknown quota fails closed no account recovers by waiting, so Retry-After is then not followed by a
  pass (`Killswitch.FailClosedBreaksTheAnnouncement`, `RetryAfterIsKeptExactlyWhen`).
- Accounts written under ids with space around them have state off the roster
  (`RosterRuns.PaddedIdIsOffRoster`, `WrittenOnRosterExactlyWhen`).
- A corrupt row loses its time of last use, accounts of one id take the state of the last, and the `quota` and
  `refresh` records lose unknown properties, when a storage is split
  (`StorageRoundTrip.StorageRoundTripExactlyWhen`, `ExtraKeyIsLost`, `LastUseOfCorruptIsLost`, `SharedIdIsLost`).
- The declared mark of a quota snapshot that its spend control was cleared does not survive loading
  (`StoredTypes.ClearedMarkerIsLost`).

Some more exact conditions are no broken promises. A whole save with a stale snapshot brings a removed account
back with its old token, which can then be presented again (`RefreshProtocol.StaleUnionPresentsSpentToken`); the
source says so of the union (packages/core/src/accounts.ts:1567-1576) and keeps `saveAccounts` for seeding tests
(ARCHITECTURE.md:29), and runs without it are safe (`WithoutReaddingNoneIsPresented`). An answer of
the provider that is lost on the way or in a process that dies leaves a spent token in the store, which is presented
again until somebody logs in (`NoSpentTokenIsPresented`, `LostAnswerPresentsSpentToken`). An
unmarked killswitch block with an entry named `main` loses it in the rewrite
(`Killswitch.RewriteDropsAnEntryNamedMain`), but `main` is a reserved id and no request asks for it, so for every
account there can be the same quota blocks the same requests (`RewriteKeepsVerdicts`), unlisted names of what
every object inherits aside (`RewriteChangesAnInheritedName`). The effort of a request itself may change
after one whose history had no user message (`EffortPin.RequestEffortStaysExactlyWhen`). And a save in which another kind of
account stands for the id of one with tokens replaces that one, tokens included
(`StoreRefinement.AccountsSaveRefines`, `SavesKeepNewestToken`).

`dafny verify dfyconfig.toml` checks the whole project.

## Model

| member | source | states |
|---|---|---|
| EffortPin.ApplyMidConversationEffort | packages/opencode/src/index.ts:1104-1179 | Rewriting a request in place leaves pin and request exactly as the rewrite prescribes for their old values; the host item list and the pin are changed in no other way. |
| EffortPin.RecordChange | packages/opencode/src/index.ts:1141-1148 | A changed effort is recorded at the last user message: appended, overwritten, or withdrawn when it goes back to the effort before. |
| EffortPin.SpliceUpdates | packages/opencode/src/index.ts:1171-1178 | Splicing the updates in from the highest anchor down puts each one directly before its own user message. |
| EffortPin.RewriteMeansTheHostRequest | packages/opencode/src/index.ts:1104-1179 | The effort in force at the end of the rewritten request is the one the host asked for; erasing the updates gives the host input back; no two updates are adjacent when the host input holds none. |
| EffortPin.ApplyKeepsReachable | packages/opencode/src/index.ts:1153-1165 | Every call keeps anchors strictly increasing and fingerprints matching, and a pin that none of the fingerprints breaks is kept, so the defensive restart is never taken. |
| EffortPin.RememberKeepsOrder | packages/opencode/src/index.ts:1138-1165 | On a pin that passed the fingerprint test, recording a change at the last user message keeps the anchors in order and no change a no-op. |
| EffortPin.NeighboursDecideOrder | packages/opencode/src/index.ts:1157-1161 | The test of neighbours the code makes finds disorder exactly when the anchors are not strictly increasing. |
| EffortPin.InsertMeaning | packages/opencode/src/index.ts:1166-1178 | Erasing an insertion into a clean input gives the input; the last configuration item is the last update. |
| EffortPin.InsertKeepsApart | packages/opencode/src/index.ts:1167-1178 | Updates at distinct user messages are never side by side. |
| EffortPin.AppendKeepsPrefix | packages/opencode/src/index.ts:1124-1178 | When the host only appends, the next rewritten request extends the previous one, unless the effort changed with no new user message. |
| EffortPin.AppendKeepsPrefixExactlyWhen | packages/opencode/src/index.ts:1124-1178 | And in that case it never does: the prefix is kept exactly when the effort stays, or a user message is new, or there is none. |
| EffortPin.SameTurnKeepsEarlierTurns | packages/opencode/src/index.ts:1138-1148 | When the effort changed with no new user message, the two rewritten inputs agree on everything before the last user message and its update. |
| EffortPin.AppendKeepsRequestEffort | packages/opencode/src/index.ts:1166 | While the host only appends to a history that has a user message, the effort of the request itself never changes. |
| EffortPin.RequestEffortStaysExactlyWhen | packages/opencode/src/index.ts:1124-1166 | For any two calls in a row it stays exactly when the first history has a user message; or neither has one and the host asks for the same effort; or only the second has one and the first call found nothing pinned, a pin with changes, or the effort it asked for pinned. |
| EffortPin.SessionPrefixesChain | packages/opencode/src/index.ts:1096-1179 | Over a session of any calls, however many are passed by: while the host only appends, each handled request extends every earlier handled one, if every handled call keeps the effort of the one before, or brings a new user message, or has none. |
| EffortPin.NextWireExtendsExactlyWhen | packages/opencode/src/index.ts:1096-1179 | Between successive handled calls of a session the request extends the one before exactly then. |
| EffortPin.SessionMeansTheHostRequests | packages/opencode/src/index.ts:1096-1179 | At every point of any session the rewritten request means what the host asked for. |
| EffortPin.TakesPartExactlyWhen | packages/opencode/src/index.ts:1083-1118 | A call pins its effort on a fresh session exactly when it comes from none of the three hidden helpers, is for one of the four models and names an effort; any other call goes out as it came and leaves the pin. |
| EffortPin.UpdatesStandWhereAskedFor | packages/opencode/src/index.ts:1124-1178 | In every request of every session each update stands directly before a user message, which has the hash and the place in the history of the last user message of a call, this or an earlier one, that asked for that effort. |
| EffortPin.StartsOverExactlyWhen | packages/opencode/src/index.ts:1124-1165 | At any point of a session a handled call restarts the pin and goes out as it came exactly when nothing was pinned, or a change was made where the history no longer has a user message of the hash recorded, or it asks for the pinned effort with no change left before its last user message; else the pinned effort and all changes before that message stay. |
| EffortPin.PinsStayReachable | packages/opencode/src/index.ts:1124-1165 | Every pin a session reaches from nothing has ordered anchors and no update that changes nothing. |
| EffortPin.UnhandledKeepsPin | packages/opencode/src/index.ts:1109-1115 | Calls for hidden agents, other models or without an effort leave the pin alone. |
| ResetCredits.PairRoundTrip | packages/core/src/reset-credits.ts:264-297 | Reading back a pair that was written gives that pair, for every pair that can be read at all, and reading never gives one that cannot. |
| ResetCredits.ResetStore.ResolveCorruptState | packages/core/src/reset-credits.ts:381-404 | An unreadable pair is dropped and the write-off noted beside the outcome before it; no other account changes. |
| ResetCredits.ResetStore.ResolveCorruptResetAttempt | packages/core/src/reset-credits.ts:459-475 | Under the lock the state is judged again, and written off only if it is still corrupt. |
| ResetCredits.ResetStore.ClaimResetAttempt | packages/core/src/reset-credits.ts:482-558 | A claim writes exactly: a write-off, a new pair, or nothing; and answers with the pair to send or the reason there is none. Reserved keys change nothing. |
| ResetCredits.ClaimAnswers | packages/core/src/reset-credits.ts:482-558 | For any row: a pair with a part missing or unusable is written off; a running cooldown is waited out; a pair of less than 300,000 ms is handed out; an older one is handed back as unreconciled unless it names another account or a 4xx other than 408, 409, 425 and 429 is noted on it; in its place, and in a free row, a new pair is made if there is a credit. |
| ResetCredits.ResetStore.FinalizeResetAttempt | packages/core/src/reset-credits.ts:572-611 | An answer settles the pair it belongs to, with a cooldown for a reset that went through, or is noted on it; a pair that is no longer saved is left alone. |
| ResetCredits.AnswerIsNoted | packages/core/src/reset-credits.ts:575-670 | An answer to a pair the row no longer holds changes nothing; a terminal one clears the pair and is noted under its own code, with a cooldown of 60,000 ms after `reset` and `already_redeemed` and none otherwise; any other leaves the pair, the last outcome and the cooldown. |
| ResetCredits.ReportedIsSaved | packages/core/src/reset-credits.ts:560-571 | What a sender is told is the pair the row holds under the ids sent once the answer is written, and nothing if it holds none such. |
| ResetCredits.ResetStore.RecordUnreconciledAnswer | packages/core/src/reset-credits.ts:626-670 | An unknown answer withdraws a refusal and is counted; a refusal is noted only if no unknown answer came since; the account is bound once. |
| ResetCredits.AnswersSettleAlike | packages/core/src/reset-credits.ts:572-670 | For any sends that read the same pair, each under its own account: a terminal answer clears it; otherwise any unknown answer leaves it unrefused with the count raised by exactly their number; otherwise it is refused. The pair keeps the account it names, or is bound to the first sender. |
| ResetCredits.AnswerOrderIsIrrelevant | packages/core/src/reset-credits.ts:572-670 | Two orders of the same answers settle the pair alike, whatever accounts they were sent under, but for the account it is bound to. |
| ResetCredits.VerdictIsOrderFreeExactlyWhen | packages/core/src/reset-credits.ts:634-656 | The account too is the same in every order exactly when a terminal answer clears the pair, or it named an account when it was read, or no two sends were made under different accounts. |
| ResetCredits.FirstAnswerBindsThePair | packages/core/src/reset-credits.ts:654-656 | A concrete pair without an account: of two unknown answers the first written binds it. |
| ResetProtocol.RunKeepsInv | packages/core/src/reset-credits.ts:940-1035 | Every interleaving of any number of attempts, lost answers and timeouts keeps refusals honest and the record telling: a refusal on record for a consumed pair has a contrary answer still to be written, or the pair was consumed late; and a pair without a counted unknown answer was not consumed late and has no request that was given up unserved. |
| ResetProtocol.StartingHasInv | packages/core/src/reset-credits.ts:940-965 | A row nobody is redeeming satisfies what the other results start from. |
| ResetProtocol.RefusedPairWasNeverConsumed | packages/core/src/reset-credits.ts:172-187 | In every run, whenever no attempt that read the saved pair is unfinished, a pair marked refused whose record counts no unknown answer (or names no account) was never consumed, and no request for it can be served any more. |
| ResetProtocol.RefusedPairWasConsumedLateIfAtAll | packages/core/src/reset-credits.ts:328-337 | Whatever the record counts, such a pair was consumed, if at all, by a request served after its attempt had finished without the answer. |
| ResetProtocol.RefusalIsReliableExactlyWhen | packages/core/src/reset-credits.ts:172-187 | For every readable refused pair: it was never consumed, in any run that ends with it saved and held by nobody, exactly when its record counts no unknown answer or names no account. |
| ResetProtocol.UnknownAnswerMayHideASpend | packages/core/src/reset-credits.ts:640-666 | For every refused pair that names an account and counts an unknown answer, a run that ends with exactly that pair saved, held by nobody, without an unserved request, consumed, and replaceable. |
| ResetProtocol.CleanReplacementDropsUnspentPair | packages/core/src/reset-credits.ts:521-548 | Replacing the pair of the same account while no attempt holds it and its record counts no unknown answer drops an unspent pair without an unserved request. |
| ResetProtocol.ReplacedPairStaysUnspent | packages/core/src/reset-credits.ts:521-548 | A pair so replaced stays unspent in every continuation. |
| ResetProtocol.NoSpentCreditIsLost | packages/core/src/reset-credits.ts:482-670 | In every run each consumed pair is saved, settled, was replaced for another account, or was replaced while an attempt held it or its record counted an unknown answer; and every pair held or requested is one of these. |
| ResetProtocol.CooldownExcludesPair | packages/core/src/reset-credits.ts:499-548 | In every run a running cooldown and a saved pair never coexist, and every saved pair is readable. |
| ResetProtocol.SpendStartsCooldown | packages/core/src/reset-credits.ts:603-607 | Once a reset or already_redeemed answer to the saved pair is written, in every continuation every attempt that looks at the row within 60 seconds is told to wait for their end and changes nothing, no pair is saved and none is minted. |
| ResetProtocol.UnspentMayBeClaimedAtOnce | packages/core/src/reset-credits.ts:589-610 | Any of the four terminal answers leaves nothing saved; a claim with a credit at that same moment mints exactly when the answer was nothing_to_reset or no_credit. |
| ResetProtocol.AnswerWithoutOutcome | packages/core/src/reset-credits.ts:626-670 | Any other answer leaves the pair saved as it was, but that a 4xx other than 408, 409, 425 and 429 marks it unless an unknown answer came since it was read, and everything else raises the unknown count by one and withdraws the mark. |
| ResetProtocol.PairSurvives | packages/core/src/reset-credits.ts:510-531 | Without a new mint or its terminal answer a saved pair stays, with its start time and, once it has one, its account. |
| ResetProtocol.MintsAreSeparated | packages/core/src/reset-credits.ts:508-548 | Two mints are separated by a terminal answer, or by at least five minutes and a recorded refusal or another account. |
| ResetProtocol.NamesAreFinal | packages/core/src/reset-credits.ts:589-661 | In every run the account a pair is minted under is the one every later copy of it names. |
| ResetProtocol.SendsOfAPairShareItsAccount | packages/core/src/reset-credits.ts:339-356 | In every run from an empty row any two sends of one pair are made under the same account. |
| ResetProtocol.UnservedRequestSpendsRefusedPair | packages/core/src/reset-credits.ts:820-862 | From any state a refused, unspent pair with an unserved request can be spent as it stands; late, if the request's attempt has finished. |
| ResetProtocol.ReadyAttemptSpendsRefusedPair | packages/core/src/reset-credits.ts:1003-1010 | So can one that an attempt is ready to send. |
| ResetProtocol.LateRequestHidesASpentCredit | packages/core/src/reset-credits.ts:18-21 | The same from an empty row: a request times out, a second attempt is refused, the first request lands, and nothing is left in flight but a refused pair that was consumed and may be replaced. |
| ResetProtocol.RefusalBesideAnUnwrittenSpend | packages/core/src/reset-credits.ts:640-666 | A concrete run in which an attempt that is merely unfinished spends the pair another was refused for, with no unknown answer counted. |
| Killswitch.KillswitchInFloors | packages/core/src/commands.ts:165-195 | The rewritten block lists the floors the older reader gives for main, the roster and every named account, and the main floors as defaults. |
| Killswitch.FillFloors | packages/core/src/commands.ts:177-185 | Exactly the listed ids but the prototype keys get an entry, each with its older floors. |
| Killswitch.RewriteKeepsFloorsExactlyWhen | packages/core/src/commands.ts:165-195 | For any roster an account keeps its floors exactly unless the older reader found something under its id, own or inherited, that the rewrite does not list or gives to the main account and that says other than the main floors. |
| Killswitch.RewriteDropsAnEntryNamedMain | packages/core/src/commands.ts:178-185 | What the two readers give for an unmarked block with an entry named main, an id no account may have and no request asks for. |
| Killswitch.RewriteChangesAnInheritedName | packages/core/src/accounts.ts:1959-1961 | What they give for an unlisted account named after a property every object inherits. |
| Killswitch.RewriteKeepsVerdicts | packages/core/src/commands.ts:151-195 | The same quota blocks the same requests at every moment before and after the rewrite, for every account but one of a reserved name, also one added later. |
| Killswitch.OffHoldsNobodyBack | packages/core/src/accounts.ts:1965-1972 | Without a killswitch that is on every account passes. |
| Killswitch.PassesExactlyFromFloors | packages/core/src/accounts.ts:1973-1986 | Running windows let an account pass exactly when each has at least its floor left; a window whose reset has come counts for nothing, or holds back when unknown quota fails closed. |
| Killswitch.UnknownQuotaIsWorstOrBest | packages/core/src/accounts.ts:1972 | An account of unknown quota passes exactly when it would with every quota if unknown quota fails closed, and with some quota otherwise; so not being read never gains a pass in the one case and never loses one in the other. |
| Killswitch.FailingClosedOnlyHoldsBack | packages/core/src/accounts.ts:1965-1986 | Setting unknown quota to fail closed lets through no account that was held back. |
| Killswitch.MissingFloorIsZero | packages/core/src/accounts.ts:1898-1950 | A floor that a marked block leaves out is a floor of zero: putting zeros down changes no floor and no verdict. |
| Killswitch.MigrationKeepsCacheSettings | packages/core/src/commands.ts:237-256 | Migration moves the older cache settings under the newer name and loses none; where both have a setting the newer stays. |
| Killswitch.SettingsObject.MigrateLegacySettings | packages/core/src/commands.ts:237-256 | The settings become their migrated form, and the answer is yes exactly when they changed. |
| Killswitch.MigrationIsIdempotent | packages/core/src/commands.ts:237-256 | A second migration, with any roster, changes nothing. |
| Killswitch.KillswitchWithDefaultFloors | packages/core/src/commands.ts:204-225 | A new block keeps its entries and defaults and gets default floors for whoever is listed without one. |
| Killswitch.FloorsOfNewBlock | packages/core/src/commands.ts:204-225 | What the reader then finds for any account: its own entry, the default floors if listed, the block's defaults otherwise. |
| Killswitch.KillswitchRetryAfterSeconds | packages/core/src/accounts.ts:1988-2024 | The answer is computed from the least, over the accounts, of the latest reset among the windows below their floors; 300 if there is none. |
| Killswitch.ViolatingResets | packages/core/src/accounts.ts:2004-2019 | The resets of the windows below their floors, given up when one of them is unknown. |
| Killswitch.PassesExactlyFromReset | packages/core/src/accounts.ts:1965-1986 | An account that fails now passes later exactly from its reset on. |
| Killswitch.RetryAfterIsEnough | packages/core/src/accounts.ts:1965-2024 | Unless the answer is the default or unknown quota fails closed, some account passes once it has gone by. |
| Killswitch.RetryAfterIsExact | packages/core/src/accounts.ts:1965-2024 | When every account of known quota fails now, whatever others are listed, the answer is the least whole number of seconds after which one of them passes, or 300 exactly when none ever will. |
| Killswitch.FailClosedNeverRecovers | packages/core/src/accounts.ts:1979-1982 | When unknown quota fails closed, an account that fails now fails at every later moment. |
| Killswitch.RetryAfterIsKeptExactlyWhen | packages/core/src/accounts.ts:1965-2024 | Then the announced wait is followed by a pass exactly when unknown quota does not fail closed and some account has a reset. |
| Killswitch.FailClosedBreaksTheAnnouncement | packages/core/src/accounts.ts:1979-2023 | A concrete policy that fails closed: 60 seconds are announced and the account still fails then. |
| VaultStream.FastChecksChangeNothing | packages/core/src/vault-routing.ts:254-261 | The two cheaper tests before each pattern never change the answer of the pattern. |
| VaultStream.FailureLinesAre | packages/core/src/vault-routing.ts:244-261 | The lines that raise the flag: an event line named error, and a data line that parses to an event of type error or response.failed or with a response of status failed, and whose text has one of the three marks; no other. |
| VaultStream.IncludesPairIsContains | packages/core/src/vault-routing.ts:258-259 | The pair patterns find exactly a name and a value with a colon between and at most white space beside it, anywhere in the text. |
| VaultStream.LinesJoinToText | packages/core/src/vault-routing.ts:324-329 | The lines of a text hold no line feed and joined by line feeds give the text back. |
| VaultStream.Observer.Inspect | packages/core/src/vault-routing.ts:310-318 | A line sets the flag exactly when it is a failure line. |
| VaultStream.Observer.Transform | packages/core/src/vault-routing.ts:321-337 | A chunk is passed on as it is; the flag and the held-back text stay what they should be for all text so far. |
| VaultStream.Observer.DrainLines | packages/core/src/vault-routing.ts:324-329 | Every complete line is inspected and the unfinished one held back. |
| VaultStream.Observer.Flush | packages/core/src/vault-routing.ts:338-341 | The last, unfinished line is inspected too. |
| VaultStream.Observe | packages/core/src/vault-routing.ts:307-341 | For every way of cutting a stream the chunks pass unchanged and in order, and the flag is set exactly by a failure line of the whole text or by text held back beyond 1 MiB. |
| VaultStream.LinesOfAppend | packages/core/src/vault-routing.ts:323-329 | The lines of a text are those complete in its beginning and those of what was left over with the rest. |
| VaultStream.SoundStep | packages/core/src/vault-routing.ts:321-336 | One chunk keeps the agreement of flag and held-back text with the text so far. |
| VaultStream.OverlongMeansLongLine | packages/core/src/vault-routing.ts:330-334 | Text held back beyond 1 MiB at some cut belongs to a line of the whole text that is longer than that. |
| VaultStream.FlagAgreesWithWholeText | packages/core/src/vault-routing.ts:307-341 | A failure line implies the flag, the flag implies a failure line or an overlong one, and without an overlong line the flag is the whole-text answer. |
| RecoveryLatch.LimitRecoveryLatch.Capture | packages/core/src/limit-recovery.ts:46-48 | Every read captured gets the next token. |
| RecoveryLatch.LimitRecoveryLatch.Adopt | packages/core/src/limit-recovery.ts:50-128 | A read is adopted exactly when it is newer than the last one adopted, authoritative, agreed and of the current namespace, generation and revision; the latch then changes as adopting prescribes, otherwise not at all. |
| RecoveryLatch.LimitRecoveryLatch.Observe | packages/core/src/limit-recovery.ts:72-90 | The rate-limit marks of whole accounts that are bound, the last one of each identity. |
| RecoveryLatch.LimitRecoveryLatch.ReviewRemembered | packages/core/src/limit-recovery.ts:91-114 | Of the remembered marks those still shown stay; those that ran out and vanished uncovered are staged while there is room. |
| RecoveryLatch.LimitRecoveryLatch.ReviewStaged | packages/core/src/limit-recovery.ts:91-114 | Staged evidence stays exactly while its account is bound and no tombstone covers a mark that is gone. |
| RecoveryLatch.LimitRecoveryLatch.TakeObserved | packages/core/src/limit-recovery.ts:115-126 | Marks shown run out are staged, running ones remembered, all of them if all fit. |
| RecoveryLatch.LimitRecoveryLatch.Stage | packages/core/src/limit-recovery.ts:130-144 | Evidence is staged unless it is spent, outdone by the account's spent evidence in both respects, or there is no room or no use any more. |
| RecoveryLatch.LimitRecoveryLatch.Candidate | packages/core/src/limit-recovery.ts:146-165 | Staged evidence of the account that ran out, none of which is later, or as late and evidenced later; some whenever there is any. |
| RecoveryLatch.LimitRecoveryLatch.Consume | packages/core/src/limit-recovery.ts:167-195 | Spends all staged evidence of the account, or, when it does not fit, ends the latch for good; yes exactly in the first case. |
| RecoveryLatch.AdoptKeepsWellformed | packages/core/src/limit-recovery.ts:50-128 | Adopting keeps the maps within 256, 256 and 1024 entries, each entry under its own identity. |
| RecoveryRuns.RunKeepsInv | packages/core/src/limit-recovery.ts:46-195 | Every run of captures, adoptions in any order and uses keeps the invariant of latch, clock and history. |
| RecoveryRuns.AdoptedRemembered | packages/core/src/limit-recovery.ts:115-126 | After an adoption every remembered entry is a mark of that view still running, on a bound account. |
| RecoveryRuns.LostIsStaged | packages/core/src/limit-recovery.ts:97-113 | A remembered mark that ran out and vanished uncovered on a bound account is staged unless it is outdone, the latch is exhausted, or what is staged and may be staged does not fit. |
| RecoveryRuns.StagedOnlyFromExpired | packages/core/src/limit-recovery.ts:91-126 | Nothing is staged but what a view showed run out or lost, and only while bound and not covered. |
| RecoveryRuns.ClearedEvidenceIsNotUsed | packages/core/src/limit-recovery.ts:87-113 | In every run: when an adopted view no longer shows a mark and holds a clear of its account, of rate limits or of all causes, at least as new as the mark, its evidence is neither remembered nor staged from then on and no probe uses it, until a view that shows the mark again is adopted. |
| RecoveryRuns.UnclearedEvidenceWaits | packages/core/src/limit-recovery.ts:87-118 | Without such a clear a read of the same generation leaves staged evidence of a bound account staged, and stages a remembered mark that ran out and vanished, unless spent evidence outdoes it, the latch is exhausted or not all that wait have room. |
| RecoveryRuns.TakenExactlyWhenNews | packages/core/src/limit-recovery.ts:50-65 | In every run a read is taken over with its token and generation exactly when it is later than the last one taken, has authority, is agreed on and has the current namespace, generation and revision; otherwise nothing changes. |
| RecoveryRuns.AdoptionHoldsWhatIsShown | packages/core/src/limit-recovery.ts:66-144 | In every run, after a read is adopted, what is remembered is unspent and shown still running, with a revision the view shows; what is staged has run out, is unspent and not outdone, and is shown with that revision or was held before and is not cleared. Conversely every unspent mark shown running is remembered, unless it was not and not all have room; and every one shown run out and not outdone is staged, unless the latch is exhausted or not all have room. |
| RecoveryRuns.CandidateIsTheLatest | packages/core/src/limit-recovery.ts:146-165 | A probe of an account has evidence to try exactly when some staged evidence of the account has run out: the one piece that ends, or of several ending together was seen, later than every other. |
| RecoveryRuns.ReachableLatch | packages/core/src/limit-recovery.ts:9-11 | In every reachable state the three maps are within bounds and pairwise disjoint, every staged entry exceeds each spent one of its account, and an exhausted latch has nothing staged. |
| RecoveryRuns.LaterUseExceeds | packages/core/src/limit-recovery.ts:130-195 | Within one stretch of a generation a later use of an account's evidence is for a later expiry or on later evidence than any earlier one. |
| RecoveryRuns.UsedTwiceOnlyAcrossGenerations | packages/core/src/limit-recovery.ts:66-71 | The same evidence is used twice in one generation only if the latch was in another one in between. |
| RecoveryRuns.ReturningGenerationReuses | packages/core/src/limit-recovery.ts:66-71 | For any evidence and any two generations, a run that uses the evidence in the first, in the second, and in the first again. |
| RecoveryRuns.MayBeUsedExactlyWhen | packages/core/src/limit-recovery.ts:66-71 | In every state of every run, any evidence may still be used under any generation, used there before or not, exactly when the latch is not exhausted. |
| RecoveryRuns.ExhaustionIsFinal | packages/core/src/limit-recovery.ts:180-187 | Once exhausted, nothing is staged or used again in any continuation, whatever generation follows. |
| LimitProvenance.LimitProvenanceStore.Record | packages/core/src/limit-provenance.ts:24-51 | Recording replaces an account's entry unless it would strengthen the same expiry; a full store gives up one observed no later than any other. |
| LimitProvenance.LimitProvenanceStore.Read | packages/core/src/limit-provenance.ts:53-64 | The account's entry, if it is still running and of that expiry and evidence. |
| LimitProvenance.LimitProvenanceStore.Retire | packages/core/src/limit-provenance.ts:66-68 | The account's entry, and no other, is gone. |
| LimitProvenance.LimitProvenanceStore.Clear | packages/core/src/limit-provenance.ts:70-72 | No entry is left. |
| LimitProvenance.LimitProvenanceStore.Reconcile | packages/core/src/limit-provenance.ts:75-94 | Exactly the running entries backed by a rate-limit mark of the snapshot are kept. |
| LimitProvenance.LimitProvenanceStore.Prune | packages/core/src/limit-provenance.ts:96-99 | Exactly the running entries are kept. |
| LimitProvenance.StoreStaysBounded | packages/core/src/limit-provenance.ts:20-51 | After any calls there are at most 256 entries, one for each account, all of the namespace. |
| LimitProvenance.BranchOnlyWeakens | packages/core/src/limit-provenance.ts:31-36 | While the account keeps one expiry, its branch only goes from the provider's word over a reading to a guess, never back. |
| LimitProvenance.ReconciledStayBacked | packages/core/src/limit-provenance.ts:74-99 | In any run, from a reconciliation until an account is recorded again, whatever entry it has is the one it had then, was running and has its mark in that snapshot; and no such entry was lost to it. |
| LimitProvenance.RecordTakesNews | packages/core/src/limit-provenance.ts:24-51 | A running entry of the own namespace takes its account's place unless there is one of the same expiry that proves no more; everything else running stays, but for one observed longest ago when there are more than 256; what is no news changes nothing else. |
| LimitProvenance.RecentEntryIsKept | packages/core/src/limit-provenance.ts:41-50 | An entry lost to a full store was observed no later than the new one and all that stay. |
| LimitsLease.NamespaceLease.StopTracking | packages/core/src/limit-registry.ts:98-112 | Tracking ends once: the registry is given up for disposal and the read and provenance dropped. |
| LimitsLease.NamespaceLease.RecordFailure | packages/core/src/limit-registry.ts:138-151 | Failures double the wait up to a minute, and a minute of failures ends tracking. |
| LimitsLease.NamespaceLease.RecordSuccess | packages/core/src/limit-registry.ts:153-159 | A success ends the run of failures and changes nothing else that matters. |
| LimitsLease.NamespaceLease.LookAt | packages/core/src/limit-registry.ts:291-294 | Looking at the registry ends tracking if it was abandoned. |
| LimitsLease.NamespaceLease.AdoptRead | packages/core/src/limit-registry.ts:268-289 | The latch is fed the last read exactly when the registry may adopt it; then every provenance entry is backed and the registry's operations are no longer pending. |
| LimitsLease.NamespaceLease.Enqueue | packages/core/src/limit-registry.ts:301-322 | A command goes to the registry or, for a mark without one, is dropped; a control becomes pending; the account's provenance is retired, or recorded for a mark whose note matches it. |
| LimitsLease.NamespaceLease.Observe | packages/core/src/limit-registry.ts:328-337 | A probe names the account and the registry in use, with the best evidence of that account that has run out, and with none only if there is none to use. |
| LimitsLease.NamespaceLease.AfterProbe | packages/core/src/limit-registry.ts:339-369 | A clear is asked for exactly after a success without a limit, on the same registry, with no running mark and evidence that could be used up. |
| LimitsLease.NamespaceLease.Install | packages/core/src/limit-registry.ts:231-242 | A registry that comes back in time is installed, unless tracking has stopped or the registry was abandoned. |
| LimitsLease.NamespaceLease.Release | packages/core/src/limit-registry.ts:403-418 | Without owners the registry is given up for disposal and provenance dropped. |
| LeaseRuns.AtMostOneUndisposed | packages/core/src/limit-registry.ts:208-266 | In every interleaving of the lease's segments at most one acquired registry is undisposed. |
| LeaseRuns.StoppedForGood | packages/core/src/limit-registry.ts:98-112 | Once tracking has stopped no later step installs a registry. |
| LeaseRuns.ClearsAreWarranted | packages/core/src/limit-registry.ts:340-368 | Every clear names the account and registry of a probe that was made, rests on that probe's evidence, which is of the same account and was used up for it, and every mark of the account had run out. |
| LeaseRuns.ClearsFollowSuccess | packages/core/src/limit-registry.ts:344-350 | A step that asks for a clear is the end of a successful probe on the registry in use. |
| LeaseRuns.EvidenceIsTried | packages/core/src/limit-registry.ts:340-368 | After a successful probe on the registry in use its evidence is tried exactly when every mark of its account has run out: a clear is then asked for unless the evidence was not staged or the latch is exhausted or of another generation; else nothing is used up. |
| LeaseRuns.ProbeStepIsAfterProbe | packages/core/src/limit-registry.ts:339-369 | The end of a probe in these runs is what the lease's own method does to the lease, with the clear it asks for, in both directions. |
| LeaseRuns.ProbesTakeTheLatest | packages/core/src/limit-registry.ts:328-337 | Looking at an account in a run adds a probe on the registry in use with the latest staged evidence of the account that has run out, and with none exactly when there is no such evidence or the latch is exhausted or has no generation. |
| LeaseRuns.ReadIsTakenExactlyWhen | packages/core/src/limit-registry.ts:268-281 | A read is taken exactly by a lease with a registry to which it is news; otherwise nothing changes. |
| LeaseRuns.AbandonedEndsTracking | packages/core/src/limit-registry.ts:291-294 | Every step that looks at the registry and finds it abandoned gives it up for disposal, ends tracking, and leaves the latch and the clears alone. |
| LeaseRuns.InstalledExactlyWhen | packages/core/src/limit-registry.ts:208-242 | A registry that arrives is put to use exactly when it is in time, tracking goes on and it is not abandoned; otherwise tracking has ended and it waits for disposal. |
| LeaseRuns.EvidenceClearsOnce | packages/core/src/limit-registry.ts:358-368 | Within one stretch of a generation no evidence gives two clears: later ones rest on evidence that exceeds the earlier. |
| LeaseRuns.EvidenceClearsAgainOnlyAcrossGenerations | packages/core/src/limit-registry.ts:358-368 | Over a whole run two clears rest on the same evidence under the same generation only if the latch went through another generation in between. |
| TokenMerge.Record.CopyRuntimeField | packages/core/src/accounts.ts:1040-1050 | The field is taken over in value or in absence. |
| TokenMerge.Record.ApplyNewerTokenState | packages/core/src/accounts.ts:1097-1123 | The record gets all five credential fields of the newer copy and keeps its others. |
| TokenMerge.NewerOf | packages/core/src/accounts.ts:1092-1116 | The copy chosen is one of the two, and neither is newer by trusted stamp and then expiry. |
| TokenMerge.MergeAccountRuntimeState | packages/core/src/accounts.ts:1125-1159 | The merged record is, field by field, from the copy that decides the field. |
| TokenMerge.KeepNewerCredential | packages/core/src/accounts.ts:1215-1233 | The incoming account with the five credential fields of the newer copy. |
| TokenMerge.MergeKeepsOneCredential | packages/core/src/accounts.ts:1097-1159 | All five credential fields come from one copy, and neither copy has a larger pair of trusted stamp and expiry. |
| TokenMerge.TiesAreDecided | packages/core/src/accounts.ts:1064-1075 | Between copies equally new another token is the incoming one, and of the same token the later refresh error is kept. |
| TokenMerge.TokenComesFrom | packages/core/src/accounts.ts:1052-1123 | Access and refresh token, expiry, stamp and refresh error all come from the copy refreshed later, where a stamp more than 300,000 ms ahead counts as 0; on equal stamps from the one that expires later; then for another token from the incoming one, and for the same token from the copy with an error seen later. |
| TokenMerge.OtherFieldsComeFrom | packages/core/src/accounts.ts:1125-1159 | Quota and its error come from the stored copy exactly when one of its two windows was read later than both of the incoming copy's; the last use is the later one; every other field is the incoming one if given. |
| TokenMerge.MergeKeepsTheLatest | packages/core/src/accounts.ts:1129-1155 | The later time of use and the later quota reading are kept, the reading with its own error; any other field is the incoming one if given. |
| TokenMerge.MergeIsIdempotent | packages/core/src/accounts.ts:1125-1159 | Saving the same record again changes nothing. |
| TokenMerge.SavesKeepTheNewest | packages/core/src/accounts.ts:1097-1159 | However many copies are saved, and whenever, the credential left is that of one of them; and if their stamps are judged alike at all the saves, none is newer. |
| TokenMerge.SteadinessIsNeeded | packages/core/src/accounts.ts:1081-1095 | Saves of copies without a stamp over a stored one all keep the newest, as judged at a later moment, exactly when the stored stamp is judged alike at the save and then. |
| TokenMerge.BelievedIsSteady | packages/core/src/accounts.ts:1081-1095 | That is so for saves in order of time whose stamps are all believed at the first. |
| TokenMerge.DisbelievedStampIsNewerLater | packages/core/src/accounts.ts:1083-1095 | A concrete stamp far ahead that loses at a save and is the newer once it is believed. |
| TokenMerge.SaveOrderIsIrrelevant | packages/core/src/accounts.ts:1097-1159 | Under that condition neither the order nor the times of the saves decide how new the credential left is. |
| RefreshProtocol.RunKeepsInv | packages/core/src/accounts.ts:2894-3007 | Every interleaving of loads, stale saves, roster edits, logins, refreshes, lost answers and dying processes keeps the newest token of each row stored, or held by the one process between answer and save, unless it was lost there or on the way and nobody logged in since; as long as rows brought back carry their newest token. |
| RefreshProtocol.NoSpentTokenIsPresented | packages/core/src/accounts.ts:2894-3007 | In every such run no process presents a refresh token that was presented before, but of a row one of whose answers was lost since its last login. |
| RefreshProtocol.WithoutReaddingNoneIsPresented | packages/core/src/accounts.ts:1564-1576 | So it is in any run without whole saves, or whose whole saves name only rows in the store. |
| RefreshProtocol.StoredTokenIsNewest | packages/core/src/accounts.ts:2975-2987 | In every such run the stored token is the newest issued and unspent, except between the provider's answer and its save or once an answer was lost. |
| RefreshProtocol.LostAnswerPresentsSpentToken | packages/core/src/accounts.ts:2975-3006 | From any state in which a process holds the stored token ready, losing the provider's answer can be followed by the presentation of that token, by then spent. |
| RefreshProtocol.SaveAccountsKeepsExactlyWhen | packages/core/src/accounts.ts:1235-1256 | A whole save keeps this exactly when every row it brings back carries the newest token. |
| RefreshProtocol.ReaddedTokenIsPresented | packages/core/src/accounts.ts:1241-1249 | From any state, a save that brings a removed row back with a spent token can be followed by its presentation. |
| RefreshProtocol.StaleUnionPresentsSpentToken | packages/core/src/accounts.ts:1241-1249 | A concrete run: refresh, removal, stale whole save, refresh, and a spent token is presented. |
| RefreshProtocol.PresentKeeps | packages/core/src/accounts.ts:2975-2986 | The provider's answer is the newest token of its row and the presented one is spent, for all rows and processes at once. |
| RefreshProtocol.SaveKeeps | packages/core/src/accounts.ts:2986-2987 | The lock holder's save puts the newest token back into the store, also when a login came between. |
| AccountStore.CollectConfigRosterIds | packages/core/src/accounts.ts:1445-1456 | The trimmed, non-blank ids in order of first appearance; none when there is no list. |
| AccountStore.PickRawRosterEntriesForPreservation | packages/core/src/accounts.ts:1479-1505 | The first row of every roster id that neither loaded nor is to be dropped. |
| AccountStore.DropWritten | packages/core/src/accounts.ts:1401-1405 | Those of the rows whose id the writer does not write itself. |
| AccountStore.MergeStorageForSave | packages/core/src/accounts.ts:1235-1256 | The union of both rosters, rows on disk first, each common row with the newer credential. |
| AccountStore.Store.LoadAccounts | packages/core/src/accounts.ts:934-939 | The accounts of the rows that load, with the state of their id laid over the row's own fields. |
| AccountStore.Store.Write | packages/core/src/accounts.ts:1372-1418 | Both files are replaced: the accounts and then the preserved rows; the accounts' state alone. |
| AccountStore.Store.SaveAccounts | packages/core/src/accounts.ts:1332-1425 | A whole save writes the union and preserves what did not load. |
| AccountStore.Store.MutateAccounts | packages/core/src/accounts.ts:1602-1703 | An edit writes its result as it is, preserving what did not load and is not to be dropped. |
| AccountStore.Store.SaveAccountState | packages/core/src/accounts.ts:1755-1822 | The state file gets the merged state of the accounts in scope that are on the roster and loses that of ids off it. |
| AccountStore.Store.MigrateIfNeeded | packages/core/src/accounts.ts:2080-2123 | A file that is no account store is replaced by an empty one if there is a token. |
| AccountRoster.AdditionsArePreserved | packages/core/src/accounts.ts:1384-1405 | The added rows are unchanged rows of the file, the first of their id, pairwise distinct, none with an id written, loaded or dropped; and none is missing. |
| AccountRoster.LeavesExactlyWhen | packages/core/src/accounts.ts:1635-1673 | An id leaves the roster exactly when it is not written and had loaded or is to be dropped. |
| AccountRoster.EntersOnlyWhenWritten | packages/core/src/accounts.ts:1393-1413 | Nothing enters the roster but the ids written. |
| AccountRoster.RosterIdsAre | packages/core/src/accounts.ts:1434-1456 | The ids collected are pairwise distinct and exactly those of the rows that count. |
| RosterRuns.StepDropsExactly | packages/core/src/accounts.ts:1602-1703 | For every writer: an id leaves exactly when a mutator leaves a loaded one out, it is named to be dropped, or the file is migrated; saves never drop one. |
| RosterRuns.RosterIdSurvives | packages/core/src/accounts.ts:1332-1425 | Through every run that does not drop it an id stays on the roster. |
| RosterRuns.UnloadedRowIsKept | packages/core/src/accounts.ts:1458-1505 | A row that does not load is carried through every run unchanged until its id is loaded, written or dropped. |
| RosterRuns.UnitedRows | packages/core/src/accounts.ts:1241-1249 | After the union each account is the caller's with the newer credential, or the one on disk. |
| RosterRuns.UnitedAccount | packages/core/src/accounts.ts:1215-1233 | Where both sides have tokens a whole save leaves the caller's account with the token a save of state would keep, and otherwise the caller's account. |
| RosterRuns.MergedStateRows | packages/core/src/accounts.ts:1789-1799 | What becomes of each id in a save of state: merged, new, or untouched. |
| RosterRuns.SavedStateRow | packages/core/src/accounts.ts:1778-1815 | For any accounts, also several of one id: a save of state leaves nothing of an id no roster row has, or of one asked for that the caller does not have; an id not asked for or not given stays as it was; of any other the caller's copies are merged one after the other over what was stored. |
| RosterRuns.SavedStateKeepsTheNewest | packages/core/src/accounts.ts:1778-1815 | What is then stored of such an id has the token of one of the copies, stored or given, and none of them is newer. |
| RosterRuns.WrittenOnRosterExactlyWhen | packages/core/src/accounts.ts:1309-1330 | After accounts are written no state is off the roster exactly when all their ids are trimmed and non-blank. |
| RosterRuns.PaddedIdIsOffRoster | packages/core/src/accounts.ts:1445-1456 | A concrete account whose id begins with a space. |
| RosterRuns.SavedStateIsOnRoster | packages/core/src/accounts.ts:1807-1814 | A save of state leaves none off the roster, whatever was there. |
| RosterRuns.RunKeepsStateOnRoster | packages/core/src/accounts.ts:1780-1814 | In every run of whole operations no account has state off the roster. |
| StoreLocks.StateIsOnRoster | packages/core/src/accounts.ts:1341-1357 | In every interleaving of the writers' single reads and writes, whenever the state lock is free no account has state off the roster. |
| StoreLocks.StepRefines | packages/core/src/accounts.ts:1341-1357 | Every single step leaves the settled files alone or does one whole operation to them. |
| StoreLocks.RunRefines | packages/core/src/accounts.ts:1338-1357 | Every interleaving leaves the files as some sequence of whole operations does. |
| StoreLocks.NoCyclicWait | packages/core/src/accounts.ts:1341-1343 | No chain of processes waiting for each other's locks has more than three. |
| StoreLocks.SomeoneCanMove | packages/core/src/accounts.ts:1341-1343 | While any process is at work, one at work waits for nobody. |
| StoreRefinement.StateSaveRefines | packages/core/src/accounts.ts:1778-1815 | For every account on the roster that has state, whatever else is in the store, a save of state is the one the refresh protocol takes; an account without state gets the snapshot's. |
| StoreRefinement.AccountsSaveRefines | packages/core/src/accounts.ts:1359-1418 | For any snapshot with distinct ids: on the accounts with tokens a whole save is the one the refresh protocol takes, but that another kind of account given for the id of one of them takes its place and its state; so the two are the same exactly when there is none such. |
| StoreRefinement.MutateIsEdit | packages/core/src/accounts.ts:1635-1687 | An edit that keeps credentials is an edit of the refresh protocol. |
| StoreRefinement.SavesKeepNewestToken | packages/core/src/accounts.ts:1205-1256 | A whole save leaves the newest token of a row on disk exactly when the snapshot has no other kind of account for its id; a save of state leaves it exactly when the same holds, or that account is out of scope, or the row has the later stamp or expiry. |
| Normalization.NormalAgain | packages/core/src/accounts.ts:485-605 | Normalising a quota snapshot, a window, a spend control, a credits record, an operation error or a reset state that was normalised gives it back. |
| Normalization.SettingAgain | packages/core/src/accounts.ts:664-795 | So does normalising a setting of the store, with the reset state of all accounts among them. |
| StoredTypes.TypedIsKept | packages/core/src/accounts.ts:69-143 | A window, spend control, credits record, quota snapshot, operation error, outcome or reset state that is well typed as declared loses nothing in normalising but fields its type does not have. |
| StoredTypes.UnchangedExactlyWhenTyped | packages/core/src/accounts.ts:485-605 | Normalising leaves a record as it is exactly when it is well typed and has no fields but those of its type. |
| StoredTypes.SoundIsRetained | packages/core/src/accounts.ts:485-605 | A record that has what it needs is kept whatever else is wrong with it, with every well-typed field of its type as it was, at every depth. |
| StoredTypes.NothingMadeUp | packages/core/src/accounts.ts:485-605 | What is made of a record is well typed and made of its own fields, strings, flags and exact numbers as they were; credits with an ill-typed overage flag are refused. |
| StoredTypes.ClearedMarkerIsLost | packages/core/src/accounts.ts:77-92 | A concrete snapshot whose declared mark that its spend control was cleared does not survive loading. |
| StoredTypes.RowLoadsExactlyWhen | packages/core/src/accounts.ts:607-662 | A row loads exactly when it is one with a refresh token, one flagged corrupt or with a blank token under an id, or one with an acceptable base URL; its account then holds every well-typed field of the row as stored and nothing else. |
| StoredTypes.LoadingKeepsWhatIsTyped | packages/core/src/accounts.ts:896-939 | Every such row, with the fields its state has under exactly its id laid over its own, is loaded into an account that holds what is well typed of both; and every loaded account is one of such a row. |
| StoredTypes.SettingsByType | packages/core/src/accounts.ts:664-795 | Of the settings well-typed records and the main id are kept as they are, and the reset rows under safe names that count with their well-typed fields; nothing else is a setting. |
| StoredTypes.IntegersOfAppend | packages/core/src/accounts.ts:779-781 | The statuses kept of a list are those kept of its parts in order. |
| StorageRoundTrip.NormalizedIsNormal | packages/core/src/accounts.ts:607-662 | Whatever account a row gives, every field of it is one that normalising keeps as it is. |
| StorageRoundTrip.NormalizeAgain | packages/core/src/accounts.ts:607-662 | Normalising the row written of such an account, with any state an account may have laid over it, gives the account back exactly when it reads its own entry from that state. |
| StorageRoundTrip.AccountsRoundTripExactlyWhen | packages/core/src/accounts.ts:998-1031 | Such accounts, ids shared or not, come back from the two files exactly when for each the state of the last account of its id reads as its own: the same entry with tokens, the same key and last use with an API key, the same last use when corrupt. |
| StorageRoundTrip.DistinctAgreeExactlyWhen | packages/core/src/accounts.ts:1016-1031 | For distinct ids that is so exactly when no corrupt account has a time of last use. |
| StorageRoundTrip.SettingsComeBack | packages/core/src/accounts.ts:1161-1195 | The settings of a loaded storage come back, but for properties of `refresh` and `quota` that neither file has a place for. |
| StorageRoundTrip.StorageRoundTripExactlyWhen | packages/core/src/accounts.ts:861-939 | A loaded storage comes back whole exactly when its two records have no such properties and its accounts agree with the state of the last of their id; for distinct ids, when no corrupt account has a time of last use. |
| StorageRoundTrip.LeaseIsWhole | packages/core/src/accounts.ts:874-894 | The main lease of a loaded storage is the config file's in all three parts when that has the id of one, whatever the state file holds, and else the main slot's in all three; splitting and loading again leaves it as it was. |
| StorageRoundTrip.ExtraKeyIsLost | packages/core/src/accounts.ts:1167-1176 | A concrete storage whose `quota` has a property of its own does not come back. |
| StorageRoundTrip.LastUseOfCorruptIsLost | packages/core/src/accounts.ts:1020 | A concrete corrupt account that loses its time of last use. |
| StorageRoundTrip.SharedIdIsLost | packages/core/src/accounts.ts:1309-1315 | Two concrete accounts of one id with different tokens do not come back. |

## Left out

- ResetProtocol.NoSpentCreditIsLost: an attempt that has sent writes the answer it gets, or that of its timeout; crashes between the dispatch and the write, and failed state writes, are excluded. How long a timeout takes is not modelled.
- ResetCredits.ResetStore.RecordUnreconciledAnswer: `unknownAnswers` is an unbounded natural number; the cut at 2^53 on reading is not modelled.
- ResetCredits.ResetStore.ClaimResetAttempt: the credit to spend is a parameter; its selection, the quota precondition, the reported `beforeState` and the advice texts are not part of this model.
- RefreshProtocol.NoSpentTokenIsPresented: locks are exclusive, a save other than that of an answer succeeds, the clock does not go back, the stamps of one row increase strictly and are at most five minutes ahead, a refresh keeps its own row in its snapshot until it is saved, and a login writes the token in the step that obtains it.
- RefreshProtocol.RunKeepsInv: the single flight of refreshes in one process, the wait for a concurrent refresh, tombstones and shielded rows are covered as loads, shared rows and given-up attempts, not in their own form.
- TokenMerge.MergeAccountRuntimeState: a stored entry that is no record is left out, a field present with undefined counts as absent, and a stamp or expiry that is no number counts as 0.
- AccountStore.Store.SaveAccounts: the settings beside the account list, retired settings and the `canWrite` veto are left out, as is a crash between the two writes.
- AccountStore.Store.SaveAccountState: the patches of the main slot's quota and refresh state and the `canWrite` veto are left out.
- AccountStore.Store.MutateAccounts: the context handed to the mutator, the settings and the `canWrite` veto are left out.
- AccountStore.Store.MigrateIfNeeded: the main account's id, kept settings and the first look without a lock are left out.
- AccountStore.Store.LoadAccounts: made-up ids, the verdict on a base URL and what `Number` makes of a value are parameters; entries of the state file are records.
- StorageRoundTrip.StorageRoundTripExactlyWhen: `version` and `main` are constant and left out, as are properties of the config file that are no settings; records named by account ids are tables beside other records; what `Number` makes of a value that is no number is a parameter.
- StoreLocks.SomeoneCanMove: states that the locks leave someone free to move, not that every process finishes; lock expiry and renewal are left out.
- RecoveryLatch.LimitRecoveryLatch.Adopt: entries of a map are visited in an arbitrary order instead of insertion order, which decides only what a full map leaves out; account ids are compared as keys.
- LeaseRuns.EvidenceClearsAgainOnlyAcrossGenerations: that a returning generation does bring the same clear again is shown of the latch (`RecoveryRuns.MayBeUsedExactlyWhen`), not of a run of the lease.
- RecoveryRuns.LostIsStaged: says what is staged while there is room for all that may be staged; which of several lost marks a nearly full map takes depends on the order.
- LimitProvenance.LimitProvenanceStore.Record: any of the entries observed longest ago may be given up, not only the first inserted.
- LimitsLease.NamespaceLease.Install: the registry, its adapter and the dispatch checks belong to `@cortexkit/common-auth`, which is not part of this model; what the registry shows is a parameter, and waiting, timers, the owner count, the deadline, the projection of bindings and the log are left out.
- LimitsLease.NamespaceLease.StopTracking: the adapter, the failure timer and the signal that wakes waiters are left out; so is the timer in `RecordFailure` and `RecordSuccess`, whose firing is a step of its own in `LeaseRuns`.
- LimitsLease.NamespaceLease.AdoptRead: the projection and the adopted bindings, which only `dispatchAtBound` reads, are left out.
- LimitsLease.NamespaceLease.Release: the owner count, the adapter, the deadline and the projection are left out.
- LeaseRuns.AtMostOneUndisposed: disposal is one step that succeeds.
- Killswitch.RewriteKeepsFloorsExactlyWhen: thresholds are finite reals and resets are optional integers; NaN, infinities and date parsing are left out.
- VaultStream.Observe: text is decoded chunk by chunk with no line feed left in the decoder at the end, JSON parsing is a parameter, and length counts characters, not UTF-16 units.
- EffortPin.RewriteMeansTheHostRequest: items are what the rewriter looks at, and the hash is an arbitrary function; hashing, JSON and the WebSocket pool are left out.
- The pool's routing, session pins, vault, limit policy and quota refusal rest on libraries whose code is not part of the repository.
- Network calls, file access, atomic renames, timers, OAuth flows, menus, logging and redaction are effects outside the state the model speaks of.
- Quota header parsing, backoff delays, credit selection and the order of body properties: each is one function of its input that keeps no state and on which none of the results above depends.
