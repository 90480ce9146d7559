/** What is on disk after each store of the engine that was written: the reference for the closures in `Transactions`. */
module Effects {
  import opened Basics
  import opened Records
  import opened Codex
  import opened CreditRules
  import opened Transactions
  import opened Protocol
  import opened Invariant
  import opened Preservation
  import opened Theorems
  import Backoff

  // A store of the thread at this place that was written, whether or not it was reported so.
  predicate Stores(w: World, a: Action) {
    Enabled(w, a) && AtStore(w.pc) && a.Thread? && a.op.outcome != Lost
  }

  // The account of the visit, as the two worlds have it.
  predicate Recorded(w: World, v: World) {
    !w.pc.Idle? && w.pc.job.item.ref in w.disk.accounts && w.pc.job.item.ref in v.disk.accounts
  }

  function Now(w: World): AccountState
    requires !w.pc.Idle? && w.pc.job.item.ref in w.disk.accounts
  {
    w.disk.accounts[w.pc.job.item.ref]
  }

  function Then(w: World, v: World): AccountState
    requires Recorded(w, v)
  {
    v.disk.accounts[w.pc.job.item.ref]
  }

  // The entry is the newest one of the log and of the history.
  predicate Logged(w: World, v: World, e: LogEntry) {
    v.audit.history == w.audit.history + [e] && v.disk.logs != [] && v.disk.logs[|v.disk.logs| - 1] == e
  }

  // What the thread knows of the disk at its stores.
  lemma OnDisk(w: World)
    requires Reached(w) && AtStore(w.pc)
    ensures ValidConfig(w.cfg)
    ensures !w.pc.LeaveNote? ==> w.pc.job.item.ref in w.disk.accounts
    ensures w.pc.StoreSuccess? || w.pc.StoreFailure? || w.pc.StoreAmbiguous? || w.pc.StoreBump? ==>
              GuardOf(w.disk, w.pc.job.item.ref).pending == Some(w.pc.attempt)
    ensures w.pc.StoreAttempt? ==>
              var g := GuardOf(w.disk, w.pc.job.item.ref);
              g.pending.None? && (g.cooldown.Some? ==> g.cooldown.value.until <= w.pc.job.now)
    ensures w.pc.StoreCleared? || w.pc.StoreUncleared? ==>
              GuardOf(w.disk, w.pc.job.item.ref).localClear == Some(w.pc.clear)
    ensures w.pc.StoreCredits? ==> Listing(w.pc.list, w.pc.job.now)
  {
    Reachable(w);
  }

  lemma StoredState(w: World, tx: Tx, outcome: Outcome)
    requires AtStore(w.pc) && outcome != Lost && Refusal(tx, w.disk, w.active).None?
    ensures StoreStep(w, tx, outcome).disk == Apply(tx, w.disk)
    ensures StoreStep(w, tx, outcome).audit == Record(w.audit, tx, w.disk)
  {
  }

  lemma AppendedLast(logs: seq<LogEntry>, e: LogEntry)
    ensures AppendLog(logs, e) != [] && AppendLog(logs, e)[|AppendLog(logs, e)| - 1] == e
  {
  }

  // The disk and the history after a written store.
  lemma StoredDisk(w: World, a: Action)
    requires Stores(w, a)
    requires Refusal(TxOf(w.pc, w.cfg, a.now, a.op.jitter, a.op.converted), w.disk, w.active).None?
    ensures var tx, v := TxOf(w.pc, w.cfg, a.now, a.op.jitter, a.op.converted), Next(w, a);
            && v.disk == Apply(tx, w.disk)
            && (Entry(tx, w.disk).Some? ==> Logged(w, v, Entry(tx, w.disk).value))
  {
    var tx := TxOf(w.pc, w.cfg, a.now, a.op.jitter, a.op.converted);
    StoredState(w, tx, a.op.outcome);
    if Entry(tx, w.disk).Some? {
      AppendedLast(w.disk.logs, Entry(tx, w.disk).value);
    }
  }

  // A transaction of the thread writes its own account's guard and report.
  lemma OwnAccount(tx: Tx, s: State)
    requires ChangesGuard(tx) && tx.ref in s.accounts
    ensures tx.ref in Apply(tx, s).accounts
    ensures Apply(tx, s).accounts[tx.ref] == s.accounts[tx.ref].(guard := GuardEffect(tx, s.accounts[tx.ref].guard),
                                                                 report := ReportEffect(tx, s.accounts[tx.ref]))
    ensures Apply(tx, s).management == if Rejection(tx, s).Some? then Rejection(tx, s) else s.management
  {
  }

  lemma OwnStore(w: World, a: Action)
    requires Stores(w, a) && w.pc.job.item.ref in w.disk.accounts
    requires w.pc.StoreSuccess? ==> GuardOf(w.disk, w.pc.job.item.ref).pending == Some(w.pc.attempt)
    requires !w.pc.StoreAttempt? && ChangesGuard(TxOf(w.pc, w.cfg, a.now, a.op.jitter, a.op.converted))
    ensures var tx, v := TxOf(w.pc, w.cfg, a.now, a.op.jitter, a.op.converted), Next(w, a);
            && Recorded(w, v)
            && Then(w, v) == Now(w).(guard := GuardEffect(tx, Now(w).guard), report := ReportEffect(tx, Now(w)))
            && v.disk.management == (if Rejection(tx, w.disk).Some? then Rejection(tx, w.disk) else w.disk.management)
            && (Entry(tx, w.disk).Some? ==> Logged(w, v, Entry(tx, w.disk).value))
  {
    StoredDisk(w, a);
    OwnAccount(TxOf(w.pc, w.cfg, a.now, a.op.jitter, a.op.converted), w.disk);
  }

  // Usage and credits are only reported.
  lemma UsageEffect(w: World, a: Action)
    requires Reached(w) && Stores(w, a) && w.pc.StoreUsage?
    ensures var v := Next(w, a);
            && Recorded(w, v) && Then(w, v).guard == Now(w).guard && Then(w, v).profile == Now(w).profile
            && Then(w, v).report == Now(w).report.(usedPercent := w.pc.usage.usedPercent, blocked := w.pc.usage.blocked,
                                                   lastScannedAt := w.pc.job.now, lastErrorCode := "")
            && v.disk.logs == w.disk.logs
  {
    OnDisk(w);
  }

  // The instant is the first at which one of the credits expires, the zero instant if there are none.
  predicate Earliest(first: Time, credits: seq<Credit>) {
    && (credits == [] ==> first == ZERO_TIME)
    && (credits != [] ==> exists c | c in credits :: c.expiresAt == first)
    && (forall c | c in credits :: first <= c.expiresAt)
  }

  // The expiry that is shown is that of the credit that expires first.
  lemma CreditsEffect(w: World, a: Action)
    requires Reached(w) && Stores(w, a) && w.pc.StoreCredits?
    ensures var v, credits := Next(w, a), w.pc.list.available;
            && Recorded(w, v) && Then(w, v).guard == Now(w).guard && Then(w, v).profile == Now(w).profile
            && Earliest(Then(w, v).report.earliestExpiresAt, credits)
            && Then(w, v).report == Now(w).report.(availableCredits := |credits|,
                                                   earliestExpiresAt := Then(w, v).report.earliestExpiresAt,
                                                   lastScannedAt := w.pc.job.now, lastErrorCode := "")
            && v.disk.logs == w.disk.logs
  {
    OnDisk(w);
    var credits := w.pc.list.available;
    forall c | c in credits
      ensures credits[0].expiresAt <= c.expiresAt
    {
      var j :| 0 <= j < |credits| && credits[j] == c;
      if j > 0 {
        ListedInOrder(w.pc.list, w.pc.job.now, 0, j);
      }
    }
  }

  // The notes of a visit change nothing but the log: those of the gates, and the one about the credit it looks at.
  lemma NoteEffect(w: World, a: Action)
    requires Reached(w) && Stores(w, a) && (w.pc.LeaveNote? || w.pc.NoteCredit?)
    ensures Next(w, a).disk == w.disk.(logs := Next(w, a).disk.logs) && Logged(w, Next(w, a), NoteOf(w.pc))
  {
    NoteIs(w.pc, w.cfg, a.now, a.op.jitter, a.op.converted);
    StoredDisk(w, a);
    NoteApplied(Note(NoteOf(w.pc)), w.disk);
  }

  // The note at the place, in plain terms.
  function NoteOf(pc: Pc): LogEntry
    requires pc.LeaveNote? || pc.NoteCredit?
  {
    if pc.LeaveNote? then pc.entry
    else
      var job, far := pc.job, !(pc.reply.Ok? && pc.reply.value.blocked) && pc.credit.expiresAt - pc.job.now > 6 * HOUR;
      LogEntry(job.now, "credit_discovered", trigger := job.trigger, accountRef := job.item.ref,
               participating := true, creditRef := pc.credit.ref,
               decision := if far then "outside_candidate_window" else "candidate",
               nextAttemptAt := if far then pc.credit.expiresAt - 6 * HOUR else ZERO_TIME)
  }

  lemma NoteIs(pc: Pc, cfg: Config, now: Time, jitter: Time, converted: Time)
    requires pc.LeaveNote? || pc.NoteCredit?
    ensures TxOf(pc, cfg, now, jitter, converted) == Note(NoteOf(pc))
  {
  }

  lemma NoteApplied(tx: Tx, s: State)
    requires tx.Note?
    ensures Apply(tx, s) == s.(logs := Apply(tx, s).logs) && Entry(tx, s) == Some(tx.entry)
  {
  }

  // An attempt is put on disk exactly while the engine is active and the account still takes part.
  lemma AttemptEffect(w: World, a: Action)
    requires Reached(w) && Stores(w, a) && w.pc.StoreAttempt?
    ensures var v, p := Next(w, a), w.pc.attempt;
            && Recorded(w, v)
            && if w.active && Now(w).profile.participating then
                 && Then(w, v) == Now(w).(guard := Now(w).guard.(pending := Some(p)))
                 && Logged(w, v, LogEntry(w.pc.job.now, "reset_attempt_started", trigger := w.pc.job.trigger,
                                          accountRef := w.pc.job.item.ref, participating := true,
                                          creditRef := p.creditRef, decision := "consume",
                                          attemptIdRef := Hash("ref", p.key)))
               else v.disk == w.disk
  {
    OnDisk(w);
  }

  // A success ends attempt and backoff, starts the cooldown and owes the local clear.
  lemma SuccessEffect(w: World, a: Action)
    requires Reached(w) && Stores(w, a) && w.pc.StoreSuccess?
    ensures var v, p, at, outcome := Next(w, a), w.pc.attempt, w.pc.now, w.pc.outcome;
            var until := at + w.cfg.postResetCooldown;
            && Recorded(w, v) && Then(w, v).profile == Now(w).profile && v.disk.management == w.disk.management
            && Then(w, v).guard == Guard(None, Now(w).guard.tombstones, Some(Cooldown(until, outcome)), None,
                                         Some(LocalClear(w.pc.job.item.authIndex, at, at, 0)))
            && Then(w, v).report == Now(w).report.(lastFingerprint := p.fingerprint, lastResult := outcome, lastErrorCode := "")
            && Logged(w, v, LogEntry(at, if "already_redeemed" <= outcome then "reset_already_redeemed" else "reset_succeeded",
                                     trigger := w.pc.job.trigger, accountRef := w.pc.job.item.ref, participating := true,
                                     creditRef := p.creditRef, outcome := outcome, attemptIdRef := Hash("ref", p.key),
                                     nextAttemptAt := until))
  {
    OnDisk(w);
    OwnStore(w, a);
  }

  function FailureTx(pc: Pc, until: Time, now: Time): Tx
    requires pc.StoreFailure?
  {
    Fail(pc.job.item.ref, pc.job.trigger, pc.attempt.fingerprint, pc.outcome, pc.tombstone, pc.attempt.creditId, now, until)
  }

  lemma FailureDelay(pc: Pc, cfg: Config, now: Time, jitter: Time, converted: Time)
    requires ValidConfig(cfg) && pc.StoreFailure?
    ensures TxOf(pc, cfg, now, jitter, converted)
            == FailureTx(pc, now + Min(Max(cfg.failureBackoff, 30 * MINUTE), 6 * HOUR) + jitter, now)
  {
    Backoff.FirstLevelDelay(Backoff.LogicalBase(cfg.failureBackoff), jitter, converted);
  }

  // A refusal or a given-up attempt ends the attempt and waits half an hour at least; a refused credit gets a tombstone.
  lemma FailureEffect(w: World, a: Action)
    requires Reached(w) && Stores(w, a) && w.pc.StoreFailure?
    ensures var v, p, outcome := Next(w, a), w.pc.attempt, w.pc.outcome;
            var until := a.now + Min(Max(w.cfg.failureBackoff, 30 * MINUTE), 6 * HOUR) + a.op.jitter;
            && Recorded(w, v) && Then(w, v).profile == Now(w).profile && v.disk.management == w.disk.management
            && Then(w, v).guard.pending == None && Then(w, v).guard.cooldown == Now(w).guard.cooldown
            && Then(w, v).guard.localClear == Now(w).guard.localClear
            && Then(w, v).guard.backoff == Some(Backoff(until, p.fingerprint, 1, outcome))
            && Then(w, v).guard.tombstones ==
               (if w.pc.tombstone && p.creditId != "" then Now(w).guard.tombstones[Hash("ref", p.creditId) := a.now]
                else Now(w).guard.tombstones)
            && Then(w, v).report == Now(w).report.(lastFingerprint := p.fingerprint, lastResult := outcome, lastErrorCode := outcome)
            && Logged(w, v, LogEntry(a.now, "reset_deferred", trigger := w.pc.job.trigger, accountRef := w.pc.job.item.ref,
                                     participating := true, creditRef := p.creditRef, decision := "backoff",
                                     outcome := outcome, attemptIdRef := Hash("ref", p.key), nextAttemptAt := until,
                                     errorCode := outcome))
  {
    OnDisk(w);
    OwnStore(w, a);
    FailureDelay(w.pc, w.cfg, a.now, a.op.jitter, a.op.converted);
    var until := a.now + Min(Max(w.cfg.failureBackoff, 30 * MINUTE), 6 * HOUR) + a.op.jitter;
    FailureApplied(FailureTx(w.pc, until, a.now), w.disk, w.pc.attempt);
  }

  lemma FailureApplied(tx: Tx, s: State, p: Attempt)
    requires tx.Fail? && tx.ref in s.accounts && s.accounts[tx.ref].guard.pending == Some(p)
    ensures Rejection(tx, s).None?
    ensures var g := s.accounts[tx.ref].guard;
            GuardEffect(tx, g) ==
            Guard(None,
                  if tx.tombstone && tx.creditId != "" then g.tombstones[Hash("ref", tx.creditId) := tx.now] else g.tombstones,
                  g.cooldown, Some(Backoff(tx.until, tx.fingerprint, 1, tx.outcome)), g.localClear)
    ensures var item := s.accounts[tx.ref];
            ReportEffect(tx, item) ==
            item.report.(lastFingerprint := tx.fingerprint, lastResult := tx.outcome, lastErrorCode := tx.outcome)
    ensures Entry(tx, s) == Some(LogEntry(tx.now, "reset_deferred", trigger := tx.trigger, accountRef := tx.ref,
                                          participating := true, creditRef := p.creditRef, decision := "backoff",
                                          outcome := tx.outcome, attemptIdRef := Hash("ref", p.key),
                                          nextAttemptAt := tx.until, errorCode := tx.outcome))
  {
  }

  // The delay at a count, while it fits an int64; a longer Retry-After replaces it.
  function RetryDelay(cfg: Config, count: nat, retryAfter: Option<Time>, jitter: Time): Time {
    var delay := Min(cfg.failureBackoff * Backoff.Pow2(count), 6 * HOUR) + jitter;
    if retryAfter.Some? then Max(delay, retryAfter.value) else delay
  }

  predicate Fits(cfg: Config, count: nat) {
    cfg.failureBackoff * Backoff.Pow2(count) < 0x8000_0000_0000_0000
  }

  // An unclear reply keeps the attempt, counts it, and waits.
  lemma AmbiguousEffect(w: World, a: Action)
    requires Reached(w) && Stores(w, a) && w.pc.StoreAmbiguous? && Fits(w.cfg, w.pc.attempt.verificationCount)
    ensures var v, p := Next(w, a), w.pc.attempt; var n := p.verificationCount + 1;
            var until := a.now + RetryDelay(w.cfg, p.verificationCount, w.pc.failure.retryAfter, a.op.jitter);
            && Recorded(w, v) && v.disk.management == w.disk.management
            && Then(w, v) == Now(w).(guard := Now(w).guard.(
                               pending := Some(p.(phase := "ambiguous", verificationCount := n)),
                               backoff := Some(Backoff(until, p.fingerprint, n, "ambiguous"))))
            && Logged(w, v, LogEntry(a.now, "reset_ambiguous", trigger := w.pc.job.trigger,
                                     accountRef := w.pc.job.item.ref, participating := true, creditRef := p.creditRef,
                                     outcome := "ambiguous", attemptIdRef := Hash("ref", p.key), nextAttemptAt := until,
                                     errorCode := "consume_ambiguous"))
  {
    OnDisk(w);
    OwnStore(w, a);
  }

  // So does a failed reading, which is not logged.
  lemma BumpEffect(w: World, a: Action)
    requires Reached(w) && Stores(w, a) && w.pc.StoreBump? && Fits(w.cfg, w.pc.attempt.verificationCount)
    ensures var v, p := Next(w, a), w.pc.attempt; var n := p.verificationCount + 1;
            var until := a.now + RetryDelay(w.cfg, p.verificationCount, None, a.op.jitter);
            && Recorded(w, v) && v.disk.management == w.disk.management && v.disk.logs == w.disk.logs
            && Then(w, v).profile == Now(w).profile && Then(w, v).report == Now(w).report.(lastResult := w.pc.reason)
            && Then(w, v).guard == Now(w).guard.(pending := Some(p.(phase := "ambiguous", verificationCount := n)),
                                                 backoff := Some(Backoff(until, p.fingerprint, n, w.pc.reason)))
  {
    OnDisk(w);
    OwnStore(w, a);
  }

  lemma DeferralDelay(pc: Pc, cfg: Config, now: Time, jitter: Time, converted: Time)
    requires ValidConfig(cfg) && pc.StoreDeferral?
    ensures TxOf(pc, cfg, now, jitter, converted)
            == Defer(pc.job.item.ref, pc.job.trigger, pc.code, now, now + RetryDelay(cfg, 0, pc.failure.retryAfter, jitter))
  {
    Backoff.FirstLevelDelay(cfg.failureBackoff, jitter, converted);
    assert Backoff.Pow2(0) == 1;
  }

  // A failure before any attempt waits one backoff, under no fingerprint.
  lemma DeferralEffect(w: World, a: Action)
    requires Reached(w) && Stores(w, a) && w.pc.StoreDeferral?
    ensures var v, code := Next(w, a), w.pc.code;
            var until := a.now + RetryDelay(w.cfg, 0, w.pc.failure.retryAfter, a.op.jitter);
            && Recorded(w, v) && v.disk.management == w.disk.management
            && Then(w, v) == Now(w).(guard := Now(w).guard.(backoff := Some(Backoff(until, "", 1, code))),
                                     report := Now(w).report.(lastErrorCode := code))
            && Logged(w, v, LogEntry(a.now, "reset_deferred", trigger := w.pc.job.trigger, accountRef := w.pc.job.item.ref,
                                     participating := true, decision := "transient_backoff", nextAttemptAt := until,
                                     errorCode := code))
  {
    OnDisk(w);
    OwnStore(w, a);
    DeferralDelay(w.pc, w.cfg, a.now, a.op.jitter, a.op.converted);
  }

  lemma ClearedEffect(w: World, a: Action)
    requires Reached(w) && Stores(w, a) && w.pc.StoreCleared?
    ensures var v := Next(w, a);
            && Recorded(w, v) && v.disk.management == w.disk.management
            && Then(w, v) == Now(w).(guard := Now(w).guard.(localClear := None))
            && Logged(w, v, LogEntry(w.pc.now, "reset_succeeded", trigger := w.pc.job.trigger,
                                     accountRef := w.pc.job.item.ref, participating := true,
                                     decision := "local_cooldown_cleared", outcome := Now(w).report.lastResult))
  {
    OnDisk(w);
    OwnStore(w, a);
  }

  // A clear that failed stays owed and is counted; a rejection pauses the whole engine for ten minutes.
  lemma UnclearedEffect(w: World, a: Action)
    requires Reached(w) && Stores(w, a) && w.pc.StoreUncleared? && w.pc.clear.attempts <= 27
    ensures var v, c := Next(w, a), w.pc.clear;
            var next := w.pc.now + Min(MINUTE * Backoff.Pow2(c.attempts), 30 * MINUTE);
            && Recorded(w, v)
            && v.disk.management == (if w.pc.auth then Some(Cooldown(w.pc.now + 10 * MINUTE, "management_auth_failed"))
                                     else w.disk.management)
            && Then(w, v) == Now(w).(guard := Now(w).guard.(
                               localClear := Some(LocalClear(c.authIndex, c.createdAt, next, c.attempts + 1))))
            && Logged(w, v, LogEntry(w.pc.now, "local_cooldown_clear_pending", trigger := w.pc.job.trigger,
                                     accountRef := w.pc.job.item.ref, participating := true, decision := "retry",
                                     nextAttemptAt := next, errorCode := "local_clear_failed"))
  {
    OnDisk(w);
    OwnStore(w, a);
    Backoff.ClearRetryDomain(w.pc.clear.attempts + 1);
  }
}
