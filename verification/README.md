# Verification model of cpa-codex-auto-reset

The plugin spends scarce reset credits of Codex accounts on a remote service. A credit once spent cannot be
taken back, replies can be lost, and the process can end between any two steps. The plugin therefore writes an
attempt with a fresh idempotency key to its state file before it calls `Consume`, and afterwards closes the
attempt as a success, keeps it as unclear, or closes it as a failure.

This project models that protocol and what it rests on, and proves what it is for.

## How the model is built

- `Protocol` is a state machine. A `World` holds the clock, the state file, the service, the place of the engine
  thread in its code, and an audit of what has happened, which decides nothing but that a new key is new. Each
  access to the file, the service or the engine's flag is one step of the thread. Between two steps the clock may
  advance, the engine may be stopped, other clients may spend credits, participation may be edited, and the
  process may restart.
  A store can be written, lost, or written and yet reported as failed. `Transactions` holds the closures that
  are handed to `Store.Update`. `Reached(w)` says that some run leads from an empty state to `w`.
- `Invariant` and `Preservation` hold one inductive invariant and its proof for every step. `Theorems`,
  `Deadlines` and `Resolution` derive from it what holds in every reached state and between any two of them;
  `Witnesses` constructs the runs that show which stronger laws fail, and `Meaning`, `Counting`, `ClearRetries`
  and `Recurrence` prove exactly when those laws do hold. `Stopping` says what a stop guarantees a visit under way.
- What each single decision and each single write is comes from references that do not use the machine's own
  functions: `Rules` states in numbers where every decision of the engine leads, `Effects` what is on disk after
  every store of it, `Edits` what discovery and the user change, and `CreditRules` and the last part of `Discovery`
  what the raw answers of the service and of the host mean. `Spending` and `Refusals` carry them over whole visits.
- `Engine` has the engine's methods in their own form, as a class that is changed step by step. What the
  surroundings answer comes from a `script`, any function from moments to answers; an answer that breaks one of
  the assumptions below is replaced by an error. The ghost field `trace` is a run of the machine that leads to
  the present state, so every theorem about runs holds of every execution, and of every execution that a crash
  cuts short, since each prefix of a run is a run and `Restart` is possible in every state. The ghost field
  `visits` adds up what the visits of that run must report. The contract of each method demands the place of the
  machine at which it is called and ends at the next, so a method that leaves out a call, makes another one, or
  stores something else does not meet it.
- `Store` and `Participation` model the files of those names in `internal/state`, `Codex` the client of the
  service, `Discovery` the search for accounts, `Web` the pages that show the state, `Lifecycle` the
  interleavings of `Scan` and `Stop`, `Fingerprint` and `Backoff` the pure parts of the engine.

## Assumptions

- (S1) A `Consume` call redeems only the credit it names, only during the call, and a key at most once.
- (S2) `nothing_to_reset` and `no_credit` are answered only for a key that has redeemed nothing.
- (S3) A credit that is listed as available is not redeemed. The converse is not assumed: credits also leave
  the list because they expire or are being redeemed.
- One engine, one process for each state directory, a clock that never goes back, and no change of the
  configuration within a run. The configured ranges are those of `internal/config/config.go`.
- No request takes effect on the service after the client has reported its failure.
- A new idempotency key has never been used before. Hashes are injective: a hash is modelled as its preimage.
- Time is in whole nanoseconds and percentages are real numbers; below 2^53 ns the floating-point products of
  the backoff are exact.

## What the proofs found

- The stored verification count has no bound (`Witnesses.VerificationUnbounded`): it is raised by failed
  readings before the limit is looked at. It goes past the limit exactly when a failed reading is written down for
  an attempt that has used up its tries (`Counting.LimitPassedIff`), it exceeds the limit by no more than the
  readings for its attempt that failed (`Counting.CountBound`), and it never does when all are answered
  (`Counting.WithinLimit`). The number of `Consume` calls is bounded in any case (`Theorems.RetryBound`), and so is
  the number of visits when readings are answered (`Resolution.ThreeVisits`).
- An attempt closed as a success need not have redeemed anything, for two reasons: its credit left the list
  without being redeemed (`Witnesses.SuccessWithoutRedemption`), or the service reported a reset it had not made
  (`Witnesses.SuccessByFalseReply`). There is no third: a visit that closes an attempt as a success has redeemed
  its key if and only if none of its answers was false in one of these two ways (`Meaning.SuccessRedeemedIff`). In a
  run without such answers every success is a redemption (`Meaning.SuccessesRedeemed`), and after one such answer a
  visit that is not disturbed always ends in an empty success (`Meaning.FalseAnswerCloses`).
- The repository's README announces an exponential backoff for temporary errors. Failures before an attempt
  are always recorded at level one, so their delay does not grow (`Backoff.FirstLevelDelay`). Such a failure
  also stores an empty fingerprint and so ends the suppression of an earlier logical failure: a run exists in
  which a refused attempt comes back under the same fingerprint (`Recurrence.SuppressedThenTried`).
- The counter of failed local clears is not capped (`ClearRetries.ClearFailuresUnbounded`). The retry is exact if
  and only if no more than 27 attempts have failed before (`ClearRetries.RetryExactIff`); later the conversion to
  an integer overflows, and runs exist in which the retry is put in the past (`ClearRetries.RetryInThePast`). The
  backoffs of pending attempts overflow alike, at base * 2^count >= 2^63 ns (`Deadlines.RetriedBackoffExactIff`).
- The ten minutes of a management pause count from the clock reading before the rejected call.
- A scan reports more errors than accounts exactly when its start entry cannot be written, the auth files cannot
  be listed, or nobody is found and that cannot be written (`Engine.Engine.Scan`).
- Only the `Stop` call that won the swap guarantees that no scan is running when it returns
  (`Lifecycle.LateStopIsNotFinal`).

## Model

| member | source | states |
|---|---|---|
| Theorems.RedemptionSpacing | internal/reset/engine.go:196-386 | in every run, with crashes, lost replies, lost or half-failed writes and edits, any two redemptions the engine causes on one account are at least a post-reset cooldown apart |
| Theorems.Conservation | internal/reset/engine.go:304-386 | every redeemed key belongs to the attempt pending on disk or to a committed success of the same account and credit; no redeemed key was ever closed as a failure |
| Theorems.WriteAhead | internal/reset/engine.go:289-301 | whenever `Consume` is called, the attempt on disk holds exactly that credit and key, the key was made for them, and it has not been closed |
| Deadlines.KeyLife | internal/reset/engine.go:439-458 | over any run a key stays bound to one account and one credit; its attempt is the account's only one until it is closed, and a closed key never comes back |
| Theorems.AttemptStep | internal/reset/engine.go:357-522 | an attempt leaves the disk only by being closed as a success or a failure; until then its credit stays and its count never falls |
| Theorems.RetryBound | internal/reset/engine.go:304-336 | `Consume` calls with one key number at most two plus the updates that failed writes and crashes swallowed; when idle, the stored count covers them |
| Resolution.BoundedResolution | internal/reset/engine.go:304-340 | a visit that passes the gates with a pending attempt closes it or raises its count by exactly one; from a count of two, with answered readings, it closes it |
| Resolution.ThreeVisits | internal/reset/engine.go:233-238 | when no write is lost and readings are answered, three visits that pass the gates close any pending attempt, whatever happens between them |
| Resolution.VisitTerminates | internal/reset/engine.go:196-386 | every step of the thread brings the visit closer to its end, whatever is answered and whatever is lost |
| Resolution.OthersUntouched | internal/reset/engine.go:196-302 | processing one account leaves every other account's guard and report as they were |
| Theorems.LocalClearOutbox | internal/reset/engine.go:366-437 | every committed success stays owed on disk with its auth index and creation time until its local clear was answered with success; a pending attempt and an owed clear never stand together |
| Theorems.Provenance | internal/reset/engine.go:249-295 | every attempt put on disk: the account participates, has no other attempt and no owed clear, its cooldown was over, the credit had not expired, and the rule of threshold and windows is met |
| Spending.RuleSpends | internal/reset/engine.go:239-302 | the converse: a visit to an account that nothing hinders, whose usage and foremost credit meet the rule both times, makes a new key for that account and credit and puts its attempt on disk |
| Refusals.RepliesSettle | internal/reset/engine.go:296-301 | what every reply of `Consume` comes to by the end of an undisturbed visit: an error leaves the attempt counted and pending, two codes close it as a success, two as a failure; the tombstones grow by the credit if and only if the reply was `no_credit` |
| Refusals.RefusalTombstoned | internal/reset/engine.go:513-518 | a refusal of a credit that was written, reported or not, leaves its tombstone |
| Refusals.RefusedNeverAgain | internal/reset/engine.go:513-518 | a credit refused for an account is never attempted for it again |
| Refusals.OnlyRefusedCredits | internal/reset/engine.go:342-352 | in every run only credits refused for an account get a tombstone there |
| Rules.LoadIff | internal/reset/engine.go:200-207 | a visit begins with the account as it is on disk, or not at all |
| Rules.GatesIff | internal/reset/engine.go:214-239 | which of clearing, verifying, and a new attempt a visit goes on to, if and only if each gate before it is open |
| Rules.GateNotes | internal/reset/engine.go:214-232 | what a visit that a gate ends leaves in the log |
| Rules.ChoiceIff | internal/reset/engine.go:244-248 | the credit looked at is the one without a tombstone that expires first, by ID at a tie |
| Rules.SpendingIff | internal/reset/engine.go:249-267 | a credit goes on to be spent if and only if the usage was read and the account is blocked, or the expiry is within six hours and the threshold reached, or it is within half an hour and anything was used; what happens otherwise |
| Rules.RecheckIff | internal/reset/engine.go:268-285 | the second look goes on if and only if the credit is still the one to spend, no backoff is running and the fingerprint is new |
| Rules.AttemptRecords | internal/reset/engine.go:590-608 | a new attempt holds the credit, the instants and the readings it was made from, under a key never issued before |
| Rules.VerificationIff | internal/reset/engine.go:304-329 | both readings are needed; a credit that is gone means success, a count of two means giving up, else the attempt is sent again |
| Rules.RetryIff | internal/reset/engine.go:330-333 | a pending attempt is sent again unless stopped or cancelled |
| Rules.ReplyIff | internal/reset/engine.go:342-352 | where each reply of `Consume` leads; only `no_credit` asks for a tombstone |
| Rules.VerifiedIff | internal/reset/engine.go:388-404 | a success is recorded as verified if and only if both readings were answered, the credit is gone or fewer are left, and the usage fell or the block was lifted |
| Rules.ClearingIff | internal/reset/engine.go:406-431 | a clear is sent when its retry is due, and what each answer leads to |
| Rules.SuccessIsCleared | internal/reset/engine.go:381-385 | a stored success goes on to its local clear, due at once |
| Rules.ShownIff | internal/web/handler.go:367-379 | the deadline shown is over if and only if cooldown, backoff and retry of the clear are |
| Effects.UsageEffect | internal/reset/engine.go:560-570 | what a usage reading changes, and that it changes only the report |
| Effects.CreditsEffect | internal/reset/engine.go:545-558 | the number of credits and the first instant at which one of them expires |
| Effects.NoteEffect | internal/reset/engine.go:250-258 | the notes of a visit, and that they change only the log |
| Effects.AttemptEffect | internal/reset/engine.go:439-458 | the attempt and its log entry are written if and only if the engine is active and the account takes part |
| Effects.SuccessEffect | internal/reset/engine.go:365-380 | the whole record, its log entry and the pause after a success: exact cooldown, exact owed clear, tombstones kept |
| Effects.FailureEffect | internal/reset/engine.go:491-522 | the same after a failure: exact backoff, fingerprint, tombstone |
| Effects.AmbiguousEffect | internal/reset/engine.go:460-474 | the same after an unclear reply, while the delay fits an int64 |
| Effects.BumpEffect | internal/reset/engine.go:476-489 | the same after a failed reading |
| Effects.DeferralEffect | internal/reset/engine.go:524-535 | the same after a failure before any attempt |
| Effects.ClearedEffect | internal/reset/engine.go:412-420 | the same after a successful local clear |
| Effects.UnclearedEffect | internal/reset/engine.go:422-436 | the same after a failed one, up to 27 earlier failures; only a rejection pauses the engine |
| Theorems.StartsAtStoreAttempt | internal/reset/engine.go:439-458 | a new pending attempt appears only through the thread's own store of it, with the engine active |
| Theorems.Suppression | internal/reset/engine.go:277-285 | no attempt begins under the fingerprint of the failure on record, before the end of its backoff, or with a tombstoned credit |
| Theorems.DeferralEndsSuppression | internal/reset/engine.go:524-535 | after a transient failure was stored no fingerprint is suppressed any more |
| Theorems.GuardStep | internal/reset/engine.go:357-535 | the record that protects an account changes only by a transaction of the thread about that account, each with its justification |
| Theorems.LogRefinement | internal/state/model.go:131-136 | in every run the stored log is the newest five hundred of all entries ever committed |
| Deadlines.BackoffRespected | internal/reset/engine.go:233-235 | a backoff that was ever on disk holds to its end, even when overwritten: no later call for credits or `Consume` belongs to a visit that began earlier |
| Deadlines.PauseRespected | internal/reset/engine.go:222-228 | a management pause that was ever on disk holds for every account: no credit is asked for or spent and nothing is cleared in a visit that began before its end |
| Deadlines.BackoffLength | internal/reset/engine.go:422-535 | an unclear reply or failed listing keeps the account quiet for at least the Retry-After, a refusal for at least half an hour; a 401 or 403 pauses the engine for ten minutes |
| Deadlines.RetriedBackoffExactIff | internal/reset/engine.go:460-489 | after a failed reading or an unclear reply without Retry-After the stored end is now + min(base * 2^count, 6 h) + jitter on every platform if and only if the product is below 2^63 |
| Deadlines.DisplayedDeadline | internal/web/handler.go:367-379 | the deadline shown for an account at any moment is kept: no later `Consume` for it comes before |
| Deadlines.TombstonesForever | internal/reset/engine.go:513-518 | tombstones only grow over any run |
| Deadlines.TombstonedNeverTried | internal/reset/engine.go:245-248 | a tombstoned credit is never again put into an attempt of that account |
| Theorems.Reachable | internal/reset/engine.go:196-535 | every reached state satisfies the invariant |
| Preservation.StepInv | internal/reset/engine.go:196-535 | every step of thread and surroundings keeps the invariant |
| Preservation.RunInv | internal/reset/engine.go:196-535 | no run leaves the invariant |
| Witnesses.VerificationUnbounded | internal/reset/engine.go:304-315 | from any waiting attempt there are runs that raise its count by any number and leave it waiting |
| Witnesses.SuccessWithoutRedemption | internal/reset/engine.go:316-325 | from any waiting attempt whose key has not redeemed there is a run that closes it as a success without a redemption |
| Witnesses.SuccessByFalseReply | internal/reset/engine.go:342-347 | from any unredeemed attempt about to be sent there is a run in which the service reports a reset it has not made and the attempt is closed as a success |
| Meaning.SuccessRedeemedIff | internal/reset/engine.go:304-386 | a visit that closes an attempt as a success has redeemed its key if and only if no list of it lacked the credit and no reply reported a reset while the key had redeemed nothing |
| Meaning.SuccessesRedeemed | internal/reset/engine.go:304-386 | in a run without such answers every key closed as a success has redeemed |
| Meaning.FalseAnswerCloses | internal/reset/engine.go:316-355 | after one such answer every undisturbed visit closes the attempt as a success with nothing redeemed |
| Counting.LimitPassedIff | internal/reset/engine.go:304-336 | a step takes a count past the limit if and only if it writes down a failed reading for an attempt at the limit |
| Counting.CountBound | internal/reset/engine.go:460-489 | in every run a pending count exceeds the limit by at most the number of failed readings for its attempt |
| Counting.WithinLimit | internal/reset/engine.go:304-336 | in every run whose readings are all answered no pending count exceeds the limit |
| ClearRetries.RetryExactIff | internal/reset/engine.go:422-428 | the retry written after a failed clear is now + min(1 min * 2^attempts, 30 min) on every platform if and only if at most 27 attempts failed before |
| ClearRetries.ClearFailuresUnbounded | internal/reset/engine.go:406-437 | from any account that owes a clear a run raises the counter by any number |
| ClearRetries.RetryInThePast | internal/reset/engine.go:422-428 | from any account that owes a clear a run writes a retry that lies before the clock |
| ClearRetries.OwingReachable | internal/reset/engine.go:366-384 | such accounts are reached from the empty state |
| Recurrence.SuppressionLasts | internal/reset/engine.go:277-285 | from any reached state on no attempt begins under the fingerprint on record until a transaction of the thread overwrites the backoff |
| Recurrence.SuppressedThenTried | internal/reset/engine.go:524-535 | from the empty state a run refuses an attempt and, after one failed listing, begins another with the same fingerprint |
| Stopping.LastConsume | internal/reset/engine.go:286-301 | a stopped engine makes at most one more `Consume` call before the next restart, and only if it stood right before it |
| Stopping.NothingBegins | internal/reset/engine.go:439-443 | a stopped engine puts no further attempt on disk before the next restart |
| Witnesses.SendingReachable | internal/reset/engine.go:239-296 | an attempt about to be sent, with nothing redeemed, is reached from the empty state |
| Witnesses.WaitingReachable | internal/reset/engine.go:239-301 | such waiting attempts are reached from the empty state |
| Engine.Engine.ProcessAccount | internal/reset/engine.go:196-302 | refines the machine: the visit is a run of it, ends idle, its results are those the visit's last place calls for, and a reported reset is one committed success |
| Engine.Engine.PassGates | internal/reset/engine.go:214-228 | participation, the pause and an owed clear come before everything else, with what each of them reports and records |
| Engine.Engine.PassWaits | internal/reset/engine.go:229-238 | a running cooldown or backoff ends the visit, a pending attempt is resolved before a new one is looked for |
| Engine.Engine.StartAttempt | internal/reset/engine.go:239-248 | from the credit list to the first credit without a tombstone |
| Engine.Engine.WeighCredit | internal/reset/engine.go:249-267 | the same from the look at the credit on: outside the window nothing happens unless the account is blocked |
| Engine.Engine.WeighUsage | internal/reset/engine.go:259-267 | the visit counts as eligible if and only if the usage was read and meets the rule in numbers; a failed reading defers |
| Engine.Engine.SpendCredit | internal/reset/engine.go:268-285 | the second look at the list and the suppression by fingerprint |
| Engine.Engine.Launch | internal/reset/engine.go:286-302 | an attempt with a fresh key is stored before anything is sent; refused stores send nothing |
| Engine.Engine.ResolvePending | internal/reset/engine.go:304-340 | a pending attempt is verified, closed, counted up or sent again with its own credit and key |
| Engine.Engine.SettlePending | internal/reset/engine.go:316-339 | without its credit in the list the attempt is closed as a success, at the limit as a failure, otherwise sent again |
| Engine.Engine.Send | internal/reset/engine.go:333-339 | an error of `Consume` leaves the attempt unclear, an answer goes to its handling |
| Engine.Engine.HandleConsumeResult | internal/reset/engine.go:342-355 | the four codes: two close as success, two as failure, one of these with a tombstone |
| Engine.Engine.CompleteSuccessfulReset | internal/reset/engine.go:357-386 | reports a reset exactly when the success was committed without an error, then tries the local clear |
| Engine.Engine.VerifyReset | internal/reset/engine.go:388-404 | readings after the reset decide between verified and unverified and close nothing themselves |
| Engine.Engine.RetryLocalClear | internal/reset/engine.go:406-437 | clears at most once, not before the retry time, and records what came of it |
| Engine.Engine.PersistAttempt | internal/reset/engine.go:439-458 | goes on to `Consume` only when the store returned no error |
| Engine.Engine.MarkAmbiguous | internal/reset/engine.go:460-474 | the visit ends; no success is recorded |
| Engine.Engine.BumpPendingVerification | internal/reset/engine.go:476-489 | the visit ends; no success is recorded |
| Engine.Engine.ApplyFailure | internal/reset/engine.go:491-522 | the visit ends with the failure's transaction; no success is recorded |
| Engine.Engine.RecordTransientFailure | internal/reset/engine.go:524-535 | the visit ends as failed, and as eligible only after the second look |
| Engine.ReportedIff | internal/reset/engine.go:178-187 | when a visit counts as a reset, as failed, and as eligible |
| Engine.SanitizeTrigger | internal/reset/engine.go:684-691 | one of the four triggers, the trimmed one if it is one of them |
| Engine.Engine.ScanAccounts | internal/reset/engine.go:174-188 | visits the accounts in order, all of them unless cancelled or stopped, and adds up their reports; resets and errors never exceed the accounts |
| Engine.Engine.Scan | internal/reset/engine.go:128-194 | 0 <= resets <= eligible <= accounts; errors exceed the accounts if and only if the start entry or the listing failed, or nobody was found and that could not be written; resets equal the successes committed, up to writes reported as failed; without an error the summary is on disk and all of what discovery yields was recorded and visited unless cut short |
| Engine.Lists | internal/reset/engine.go:316-322 | whether the credit is still listed |
| Engine.StoreCounts | internal/reset/engine.go:366-383 | a store adds exactly one success for a key that had none, or none at all |
| Edits.ReconcileIff | internal/state/participation.go:21-46 | found accounts are present, seen now, and displayed as last found; new ones take part as configured with nothing on record; known ones keep the rest; the others keep all but their presence |
| Edits.ParticipateIff | internal/state/participation.go:61-73 | an edit sets the participation of the present accounts it names, and nothing else |
| Edits.PresentIff | internal/state/model.go:42-44 | an account is present unless it was found absent |
| Edits.FinishIff | internal/reset/engine.go:537-543 | the end of a scan is on record and logged with its length |
| Edits.NoteIff | internal/reset/engine.go:572-577 | a plain entry changes only the log, which never exceeds five hundred entries |
| Transactions.PresentAfterReconcile | internal/state/participation.go:21-46 | after a reconciliation exactly the discovered accounts are present |
| Transactions.GuardAfter | internal/reset/engine.go:357-535 | what a transaction does to the guard of every account; none drops an account |
| Transactions.OthersUnchanged | internal/reset/engine.go:357-570 | a transaction about one account leaves every other record unchanged |
| Transactions.EditsKeepGuards | internal/state/participation.go:17-76 | discovery results and edits never drop an account or touch a guard, a report or the management pause |
| Transactions.TombstonesGrow | internal/reset/engine.go:513-518 | no transaction removes a tombstone |
| Lifecycle.OneScan | internal/reset/engine.go:128-145 | for any number of threads, at most one is in a scan |
| Lifecycle.StopIsFinal | internal/reset/engine.go:113-138 | once the `Stop` that won the swap has returned, no thread is in a scan and none ever enters one |
| Lifecycle.LateStopIsNotFinal | internal/reset/engine.go:113-116 | a `Stop` that lost the swap can return while a scan is running |
| Lifecycle.RunInv | internal/reset/engine.go:113-138 | in every interleaving only the holder of the lock is past it, and no scan runs beside or after a `Stop` that has the lock |
| Backoff.DurationExact | internal/reset/engine.go:665-675 | the delay is min(base * 2^(level-1), maximum) + jitter on every platform if and only if the product is below 2^63 |
| Backoff.DurationMonotone | internal/reset/engine.go:665-675 | within that domain the delay without jitter grows with the level |
| Backoff.TransientAtLeastRetryAfter | internal/reset/engine.go:641-651 | the delay is never shorter than the Retry-After, which never shortens it |
| Backoff.FirstLevelDelay | internal/reset/engine.go:524-535 | a transient failure waits one base, at most six hours, plus jitter |
| Backoff.LogicalFailureDelay | internal/reset/engine.go:491-497 | a logical failure waits at least half an hour whatever is configured |
| Backoff.ClearRetryDomain | internal/reset/engine.go:422-428 | the retry delay of a local clear is exact if and only if the level is at most 28; beyond, it can be negative |
| Fingerprint.FingerprintInjective | internal/reset/engine.go:630-639 | two decisions share a fingerprint if and only if account, credit, available count, presence and end of both windows agree |
| Codex.ReadUsage | internal/codex/client.go:99-155 | accepts exactly the complete answers; the used percentage is the largest of the windows present; blocked if any of three signals says so |
| Codex.ReadCredits | internal/codex/client.go:157-217 | accepts exactly complete, unexpired, duplicate-free lists whose count agrees, and returns the usable credits, whatever expires first first and by ID at a tie; a rejection names the first defect of the first defective item |
| Codex.ReadConsume | internal/codex/client.go:219-249 | succeeds exactly for a credit, a key and one of the four codes, and returns the code that was answered |
| Codex.ParseCode | internal/codex/client.go:243-247 | inverts the spelling of the codes, and only of the codes |
| Codex.ListingOrderIrrelevant | internal/codex/client.go:174-216 | the order in which the service lists its items changes neither acceptance nor result |
| CreditRules.AcceptsIff | internal/codex/client.go:171-209 | acceptance item by item: known status, ID, stamp after now, no repeated ID, and the count |
| CreditRules.UsableIff | internal/codex/client.go:203-205 | the credits kept are exactly the available items of type `codex_rate_limits` |
| CreditRules.ListedInOrder | internal/codex/client.go:210-215 | in every list the engine relies on an earlier credit expires earlier, or at the same instant with a smaller ID |
| CreditRules.FirstUsableIff | internal/reset/engine.go:621-628 | the choice is the credit without a tombstone that expires first, by ID at a tie |
| CreditRules.ReadableUsageIff | internal/codex/client.go:119-146 | which usage answers are accepted, window by window |
| Codex.SortedFacts | internal/codex/client.go:210-215 | ordering keeps exactly the credits it is given, strictly ordered |
| Codex.FirstUsable | internal/reset/engine.go:621-628 | a listed credit without a tombstone, or none if every credit has one |
| Codex.FirstUsableIsLeast | internal/reset/engine.go:621-628 | on an ordered list the chosen credit precedes every other one without a tombstone |
| Discovery.OffersIff | internal/account/discovery.go:50-86 | an entry offers an account if and only if it and its file pass every check, with each field of the account as the files have it |
| Discovery.DiscoveredIff | internal/account/discovery.go:48-99 | every account found is offered by some entry; for every account offered one with its ID is found that goes before it |
| Discovery.Discover | internal/account/discovery.go:40-100 | one account for each usable account ID, enabled ones and then smaller auth indexes preferred, ordered by reference |
| Discovery.DiscoveryOrderIrrelevant | internal/account/discovery.go:48-99 | the order in which the host lists its files does not change the result when auth indexes are distinct |
| Discovery.OnePerAccountId | internal/account/discovery.go:87-90 | no two discovered accounts share an account ID or a reference |
| Store.Store.Update | internal/state/store.go:38-60 | whatever fails, the file holds the old or the complete new state; unchanged on load and closure errors; new when no error is returned; equal to the protocol's write |
| Store.Store.Save | internal/state/store.go:89-133 | the file changes exactly when the rename was reached, and an error after it does not undo it; no temporary file stays unless the process ends |
| Store.Store.Load | internal/state/store.go:62-87 | a missing file reads as the empty state, an unreadable or corrupt one as an error |
| Participation.ReconcileAccounts | internal/state/participation.go:17-48 | the loops do what the transaction of the protocol does, and leave every account as `Edits.ReconcileIff` says |
| Participation.SetParticipation | internal/state/participation.go:50-76 | known references are updated and nothing else is, unknown ones reported once each in order; updated plus unknown is the number of distinct non-blank references |
| Web.Logs | internal/web/handler.go:219-229 | swapping in place yields the reversed log |
| Web.LogsNewestFirst | internal/web/handler.go:219-229 | in every run the page shows the newest five hundred of all committed entries, newest first |
| Web.NextAllowedAt | internal/web/handler.go:367-379 | the latest of cooldown, backoff and clear retry, the zero time if there is none |
| Web.Status | internal/web/handler.go:154-185 | each counter is the number of accounts not found absent that have its property; the next scan is due an interval after the latest ended |
| Web.Partition | internal/web/handler.go:168-173 | every present account is counted as participating or not, never as both |
| Web.Accounts | internal/web/handler.go:187-217 | one view for each account not found absent, each field as on record, ordered by lower-case heading and reference |
| Web.PagesAgree | internal/web/handler.go:154-217 | the counters of the status page are those one counts on the accounts page |

## Left out

- `main.go`, `internal/host/client.go`, `internal/management/client.go` and `Client.do`: the C interface and HTTP; only the shapes of their results appear, as answers to the engine's calls.
- `internal/plugin/runtime.go`: overlapping lifecycle calls can leave two engines active, so that there is one engine is an assumption here.
- `internal/config/config.go`: only the ranges its validation admits are used.
- JSON, base64 and token claims, SHA-256, randomness, RFC 3339 parsing, file locks and permissions: libraries. What decoding yields is an input.
- A loss of power after a rename whose directory was never synchronised, and two processes that share a state directory.
- The state file's limit of 8 MB and its schema version: both are covered by the corrupt contents of `Store`.
- Null entries in the stored map of accounts are taken as absent.
- `sort.Slice` and `sort.Strings` are modelled as an insertion sort; the orders are strict on what is sorted, so there is only one result. Only the account page sorts by a key that can tie; the order within a tie is not stated.
- Backoff.DurationExact: base * 2^(level-1) is taken as exact, as it is for bases below 2^53 ns; larger bases round.
- Web.Status: the version and the configuration it also shows are constants and inputs, and left out; the mapping to lower case is a parameter of `Web.Accounts`.
- Web routing, origin checks, assets and the participation and scan endpoints: glue around the functions modelled.
- Engine.Engine.Scan: what the host lists is an input, and the lock that keeps scans apart is modelled in `Lifecycle` alone.
- Engine.Engine.Launch: which error a failed visit returns is not modelled, only that there is one.
- `Start`, its timers, and the 15 seconds `Stop` waits for the background loop.
