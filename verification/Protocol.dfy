/** The redemption protocol as a machine: `internal/reset/engine.go`.

    One engine thread works through `processAccount`; a program counter stands for the
    call it makes next and carries the values its local variables hold there. Between any
    two of its steps the clock may advance, participation edits may commit, credits may be
    spent by somebody else, and the process may crash and restart. */
module Protocol {
  import opened Basics
  import opened Records
  import opened Codex
  import opened Discovery
  import opened Transactions
  import Backoff
  import Fingerprint

  const CANDIDATE_WINDOW: Time := 6 * HOUR
  const PROTECTION_WINDOW: Time := 30 * MINUTE
  const MAXIMUM_VERIFICATION_TRIES: nat := 2

  datatype Config = Config(postResetCooldown: Time, failureBackoff: Time, resetThreshold: real)

  // The ranges `Config.Validate` admits.
  predicate ValidConfig(c: Config) {
    && MINUTE <= c.postResetCooldown <= 7 * 24 * HOUR
    && MINUTE <= c.failureBackoff <= 7 * 24 * HOUR
    && 80.0 <= c.resetThreshold <= 100.0
  }

  // What `processAccount` holds after loading the state: the account, the instant it read
  // before loading, and the loaded record.
  datatype Job = Job(item: Account, trigger: string, now: Time, snap: AccountState, management: Option<Cooldown>)

  type UsageReply = Result<Usage, Failure>
  type CreditsReply = Result<CreditList, Failure>
  type ConsumeReply = Result<ConsumeCode, Failure>

  datatype ClearReply = ClearDone | ClearUnauthorized | ClearFailed

  datatype Pc =
    | Idle
    // processAccount
    | AskUsage(job: Job)
    | StoreUsage(job: Job, usage: Usage)
    | LeaveNote(job: Job, entry: LogEntry)
    | AskCredits(job: Job, reply: UsageReply)
    | StoreCredits(job: Job, reply: UsageReply, list: CreditList)
    | NoteCredit(job: Job, reply: UsageReply, credit: Credit)
    | Recheck(job: Job, usage: Usage, credit: Credit)
    | Decide(job: Job, usage: Usage, credit: Credit, count: int)
    | StoreAttempt(job: Job, attempt: Attempt)
    | Spend(job: Job, attempt: Attempt)
    // resolvePending
    | VerifyCredits(job: Job, attempt: Attempt)
    | VerifyUsage(job: Job, attempt: Attempt, list: CreditList)
    | MayRetry(job: Job, attempt: Attempt)
    // completeSuccessfulReset; `spent` tells whether this visit called Consume
    | ConfirmCredits(job: Job, attempt: Attempt, outcome: string, spent: bool)
    | ConfirmUsage(job: Job, attempt: Attempt, outcome: string, spent: bool, now: Time, credits: CreditsReply)
    | StoreSuccess(job: Job, attempt: Attempt, outcome: string, spent: bool, now: Time)
    // the failure paths
    | StoreFailure(job: Job, attempt: Attempt, outcome: string, tombstone: bool, spent: bool)
    | StoreAmbiguous(job: Job, attempt: Attempt, failure: Failure)
    | StoreBump(job: Job, attempt: Attempt, reason: string)
    | StoreDeferral(job: Job, code: string, failure: Failure)
    // retryLocalClear
    | ClearQuota(job: Job, clear: LocalClear)
    | StoreCleared(job: Job, clear: LocalClear, now: Time)
    | StoreUncleared(job: Job, clear: LocalClear, now: Time, auth: bool)

  // ------------------------------------------------ decisions on local values

  function Skip(job: Job, event: string, participating: bool, decision: string, creditRef: string, next: Time): Pc {
    LeaveNote(job, LogEntry(job.now, event, trigger := job.trigger, accountRef := job.item.ref,
                            participating := participating, creditRef := creditRef, decision := decision,
                            nextAttemptAt := next))
  }

  // The gates at the head of `processAccount`.
  function Gate(job: Job, reply: UsageReply): Pc {
    var g := job.snap.guard;
    if !job.snap.profile.participating then Skip(job, "account_skipped_not_participating", false, "skip", "", ZERO_TIME)
    else if job.item.disabled then Skip(job, "reset_deferred", true, "disabled", "", ZERO_TIME)
    else if job.management.Some? && Running(job.management.value.until, job.now) then Idle
    else if g.localClear.Some? then ClearQuota(job, g.localClear.value)
    else if Cooling(g, job.now) then Skip(job, "reset_suppressed_cooldown", true, "", "", g.cooldown.value.until)
    else if BackingOff(g, job.now) then Idle
    else if g.pending.Some? then VerifyCredits(job, g.pending.value)
    else AskCredits(job, reply)
  }

  predicate Blocked(reply: UsageReply) {
    reply.Ok? && reply.value.blocked
  }

  predicate OutsideWindow(job: Job, reply: UsageReply, credit: Credit) {
    !Blocked(reply) && credit.expiresAt - job.now > CANDIDATE_WINDOW
  }

  predicate BelowThreshold(job: Job, usage: Usage, credit: Credit, cfg: Config) {
    && !usage.blocked && usage.usedPercent < cfg.resetThreshold
    && !(credit.expiresAt - job.now <= PROTECTION_WINDOW && usage.usedPercent > 0.0)
  }

  function NewAttempt(job: Job, usage: Usage, credit: Credit, count: int, key: string): Attempt {
    Attempt(credit.id, credit.ref, key, job.now, credit.expiresAt, "persisted",
            Fingerprint.Of(job.item.ref, credit.ref, usage, count), 0, count, usage.usedPercent, usage.blocked)
  }

  function AfterUsage(pc: Pc, reply: UsageReply): Pc
    requires pc.AskUsage? || pc.VerifyUsage? || pc.ConfirmUsage?
  {
    match pc
    case AskUsage(job) => if reply.Ok? then StoreUsage(job, reply.value) else Gate(job, reply)
    case VerifyUsage(job, attempt, list) =>
      if reply.Err? then StoreBump(job, attempt, "usage_verify_failed")
      else if !Contains(list.available, attempt.creditId) then ConfirmCredits(job, attempt, "verified_credit_consumed", false)
      else if attempt.verificationCount >= MAXIMUM_VERIFICATION_TRIES
      then StoreFailure(job, attempt, "ambiguous_verification_exhausted", false, false)
      else MayRetry(job, attempt)
    case ConfirmUsage(job, attempt, outcome, spent, now, credits) =>
      StoreSuccess(job, attempt, outcome + (if Verified(attempt, credits, reply) then "_verified" else "_unverified"), spent, now)
  }

  predicate Verified(attempt: Attempt, credits: CreditsReply, usage: UsageReply) {
    && credits.Ok? && usage.Ok?
    && (!Contains(credits.value.available, attempt.creditId) || credits.value.availableCount < attempt.preAvailableCount)
    && (usage.value.usedPercent < attempt.preUsedPercent || (attempt.preBlocked && !usage.value.blocked))
  }

  function AfterCredits(pc: Pc, now: Time, reply: CreditsReply): Pc
    requires pc.AskCredits? || pc.Recheck? || pc.VerifyCredits? || pc.ConfirmCredits?
  {
    match pc
    case AskCredits(job, usage) =>
      if reply.Err? then StoreDeferral(job, "credit_list_failed", reply.error) else StoreCredits(job, usage, reply.value)
    case Recheck(job, usage, credit) =>
      if reply.Err? then StoreDeferral(job, "credit_recheck_failed", reply.error)
      else
        var g, again := job.snap.guard, FirstUsable(reply.value.available, job.snap.guard.tombstones);
        if again.None? || again.value.id != credit.id then Idle
        else if BackingOff(g, job.now) then Idle
        else if g.backoff.Some? && g.backoff.value.fingerprint ==
                                   Fingerprint.Of(job.item.ref, credit.ref, usage, reply.value.availableCount) then Idle
        else Decide(job, usage, credit, reply.value.availableCount)
    case VerifyCredits(job, attempt) =>
      if reply.Err? then StoreBump(job, attempt, "credit_verify_failed") else VerifyUsage(job, attempt, reply.value)
    case ConfirmCredits(job, attempt, outcome, spent) => ConfirmUsage(job, attempt, outcome, spent, now, reply)
  }

  function AfterConsume(pc: Pc, reply: ConsumeReply): Pc
    requires pc.Spend?
  {
    var (job, attempt) := (pc.job, pc.attempt);
    match reply
    case Err(failure) => StoreAmbiguous(job, attempt, failure)
    case Ok(Reset) => ConfirmCredits(job, attempt, "reset", true)
    case Ok(AlreadyRedeemed) => ConfirmCredits(job, attempt, "already_redeemed", true)
    case Ok(NothingToReset) => StoreFailure(job, attempt, "nothing_to_reset", false, true)
    case Ok(NoCredit) => StoreFailure(job, attempt, "no_credit", true, true)
  }

  // The look at the engine's flag and at cancellation before an attempt goes out.
  // A new attempt also needs a key, and there may be no randomness for one.
  function AfterCheck(pc: Pc, go: bool, key: Option<string>): Pc
    requires pc.Decide? || pc.MayRetry?
  {
    if !go then Idle
    else if pc.MayRetry? then Spend(pc.job, pc.attempt)
    else if key.None? then Idle
    else StoreAttempt(pc.job, NewAttempt(pc.job, pc.usage, pc.credit, pc.count, key.value))
  }

  function AfterClear(pc: Pc, now: Time, reply: ClearReply): Pc
    requires pc.ClearQuota?
  {
    if Running(pc.clear.nextRetryAt, now) then Idle
    else if reply.ClearDone? then StoreCleared(pc.job, pc.clear, now)
    else StoreUncleared(pc.job, pc.clear, now, reply.ClearUnauthorized?)
  }

  predicate AtStore(pc: Pc) {
    || pc.StoreUsage? || pc.LeaveNote? || pc.StoreCredits? || pc.NoteCredit? || pc.StoreAttempt? || pc.StoreSuccess?
    || pc.StoreFailure? || pc.StoreAmbiguous? || pc.StoreBump? || pc.StoreDeferral? || pc.StoreCleared? || pc.StoreUncleared?
  }

  // The transaction a store step runs; `now` is the clock reading taken just before it.
  function TxOf(pc: Pc, cfg: Config, now: Time, jitter: Time, converted: Time): Tx
    requires AtStore(pc)
  {
    var ref, trigger := pc.job.item.ref, pc.job.trigger;
    match pc
    case StoreUsage(job, usage) => SaveUsage(ref, usage, job.now)
    case LeaveNote(_, entry) => Note(entry)
    case StoreCredits(job, _, list) => SaveCredits(ref, list, job.now)
    case NoteCredit(job, reply, credit) =>
      var outside := OutsideWindow(job, reply, credit);
      Note(LogEntry(job.now, "credit_discovered", trigger := trigger, accountRef := ref, participating := true,
                    creditRef := credit.ref, decision := if outside then "outside_candidate_window" else "candidate",
                    nextAttemptAt := if outside then credit.expiresAt - CANDIDATE_WINDOW else ZERO_TIME))
    case StoreAttempt(job, attempt) => Persist(ref, trigger, attempt, job.now)
    case StoreSuccess(job, attempt, outcome, _, at) =>
      Succeed(ref, trigger, job.item.authIndex, attempt, outcome, at, at + cfg.postResetCooldown)
    case StoreFailure(_, attempt, outcome, tombstone, _) =>
      var delay := Backoff.Transient(None, 1, Backoff.LogicalBase(cfg.failureBackoff), jitter, converted);
      Fail(ref, trigger, attempt.fingerprint, outcome, tombstone, attempt.creditId, now, now + delay)
    case StoreAmbiguous(_, attempt, failure) =>
      var delay := Backoff.Transient(failure.retryAfter, attempt.verificationCount + 1, cfg.failureBackoff, jitter, converted);
      Postpone(ref, trigger, attempt, now, now + delay)
    case StoreBump(_, attempt, reason) =>
      var delay := Backoff.Transient(None, attempt.verificationCount + 1, cfg.failureBackoff, jitter, converted);
      Bump(ref, attempt, reason, now + delay)
    case StoreDeferral(_, code, failure) =>
      var delay := Backoff.Transient(failure.retryAfter, 1, cfg.failureBackoff, jitter, converted);
      Defer(ref, trigger, code, now, now + delay)
    case StoreCleared(_, _, at) => Cleared(ref, trigger, at)
    case StoreUncleared(_, clear, at, auth) =>
      var delay := Backoff.Duration(clear.attempts + 1, MINUTE, Backoff.LONGEST_CLEAR_RETRY, 0, converted);
      Uncleared(ref, trigger, clear, at, at + delay, auth)
  }

  function JitterBase(pc: Pc, cfg: Config): Time {
    if pc.StoreFailure? then Backoff.LogicalBase(cfg.failureBackoff) else cfg.failureBackoff
  }

  // Where the thread goes once the store has returned; most store errors are ignored.
  function AfterStore(pc: Pc, cfg: Config, ok: bool): Pc
    requires AtStore(pc)
  {
    match pc
    case StoreUsage(job, usage) => Gate(job, Ok(usage))
    case StoreCredits(job, reply, list) =>
      var first := FirstUsable(list.available, job.snap.guard.tombstones);
      if first.None? then Idle else NoteCredit(job, reply, first.value)
    case NoteCredit(job, reply, credit) =>
      if OutsideWindow(job, reply, credit) then Idle
      else if reply.Err? then StoreDeferral(job, "usage_failed", reply.error)
      else if BelowThreshold(job, reply.value, credit, cfg)
      then Skip(job, "reset_deferred", true, "below_threshold", credit.ref, ZERO_TIME)
      else Recheck(job, reply.value, credit)
    case StoreAttempt(job, attempt) => if ok then Spend(job, attempt) else Idle
    case StoreSuccess(job, _, _, _, at) => if ok then ClearQuota(job, LocalClear(job.item.authIndex, at, at, 0)) else Idle
    case _ => Idle
  }

  // ------------------------------------------------------------- the world

  datatype Redemption = Redemption(ref: string, credit: string, at: Time)

  // `redeemed` are the credits spent by anybody, `byKey` the redemptions an engine key caused.
  datatype Server = Server(redeemed: set<string>, byKey: map<string, Redemption>)

  datatype Issue = Issue(ref: string, credit: string)

  datatype Success = Success(ref: string, authIndex: string, at: Time)

  // A record of what has happened so far; it decides nothing but that a new key is new.
  //   issued      the account and credit each key was made for
  //   calls       how often Consume was called with a key
  //   lost        updates after a Consume call that a failed write or a crash swallowed
  //   successes   committed successes, failures  keys closed by a committed failure
  //   cleared     local clears (account, auth index, creation) that were answered with success
  //   quiet       the latest backoff end ever committed for an account
  //   authQuiet   the latest management cooldown end ever committed
  //   history     every log entry ever committed
  datatype Audit = Audit(
    issued: map<string, Issue>,
    calls: map<string, nat>,
    lost: map<string, nat>,
    successes: map<string, Success>,
    failures: set<string>,
    cleared: set<(string, string, Time)>,
    quiet: map<string, Time>,
    authQuiet: Option<Time>,
    history: seq<LogEntry>)

  // `since` is the clock at the engine thread's latest step.
  datatype World = World(
    cfg: Config,
    clock: Time,
    since: Time,
    active: bool,
    disk: State,
    server: Server,
    pc: Pc,
    audit: Audit)

  predicate Initial(w: World) {
    && ValidConfig(w.cfg) && w.since <= w.clock && w.disk == NEW_STATE && w.server.byKey == map[] && w.pc == Idle
    && w.audit == Audit(map[], map[], map[], map[], {}, {}, map[], None, [])
  }

  // How a call of `Store.Update` ends: written, not written, or written and yet an error.
  datatype Outcome = Committed | Lost | CommittedError

  datatype Op =
    | Load(item: Account, trigger: string, ok: bool)
    | GetUsage(usage: UsageReply)
    | GetCredits(credits: CreditsReply)
    | Consume(redeems: bool, code: ConsumeReply)
    | ResetQuota(clearing: ClearReply)
    | Check(go: bool, key: Option<string>)
    | Update(jitter: Time, converted: Time, outcome: Outcome)

  datatype Action =
    | Tick(to: Time)
    | Stop
    | Restart
    | Foreign(credit: string)
    | Edit(tx: Tx, outcome: Outcome)
    | Thread(now: Time, op: Op)

  // (S3) A credit listed as available is not redeemed. `at` is the instant the reply is read against.
  predicate Truthful(server: Server, reply: CreditsReply, at: Time) {
    reply.Ok? ==> Listing(reply.value, at) && forall c | c in reply.value.available :: c.id !in server.redeemed
  }

  // (S1) A key redeems at most once; (S2) the two refusals come only for a key that has not redeemed.
  predicate Honest(server: Server, key: string, redeems: bool, reply: ConsumeReply) {
    && (redeems ==> key !in server.byKey)
    && (reply == Ok(NothingToReset) || reply == Ok(NoCredit) ==> !redeems && key !in server.byKey)
  }

  predicate OpEnabled(w: World, now: Time, op: Op) {
    match op
    case Load(_, _, _) => w.pc.Idle?
    case GetUsage(reply) =>
      (w.pc.AskUsage? || w.pc.VerifyUsage? || w.pc.ConfirmUsage?) && (reply.Ok? ==> ValidWindows(reply.value))
    case GetCredits(reply) =>
      || ((w.pc.AskCredits? || w.pc.Recheck?) && Truthful(w.server, reply, w.pc.job.now))
      || ((w.pc.VerifyCredits? || w.pc.ConfirmCredits?) && Truthful(w.server, reply, now))
    case Consume(redeems, reply) => w.pc.Spend? && Honest(w.server, w.pc.attempt.key, redeems, reply)
    case ResetQuota(_) => w.pc.ClearQuota?
    case Check(go, key) =>
      (w.pc.Decide? || w.pc.MayRetry?) && (go ==> w.active) && (go && w.pc.Decide? && key.Some? ==> key.value !in w.audit.issued)
    case Update(jitter, _, _) => AtStore(w.pc) && Backoff.JitterOf(JitterBase(w.pc, w.cfg), jitter)
  }

  predicate Enabled(w: World, a: Action) {
    match a
    case Tick(to) => w.clock <= to
    case Edit(tx, _) => IsEdit(tx)
    case Thread(now, op) => w.since <= now <= w.clock && OpEnabled(w, now, op)
    case _ => true
  }

  function Count(m: map<string, nat>, key: string): nat {
    Lookup(m, key, 0)
  }

  // The key of a Consume call whose result has not been stored yet.
  function Unsaved(pc: Pc): Option<string> {
    match pc
    case ConfirmCredits(_, attempt, _, spent) => if spent then Some(attempt.key) else None
    case ConfirmUsage(_, attempt, _, spent, _, _) => if spent then Some(attempt.key) else None
    case StoreSuccess(_, attempt, _, spent, _) => if spent then Some(attempt.key) else None
    case StoreFailure(_, attempt, _, _, spent) => if spent then Some(attempt.key) else None
    case StoreAmbiguous(_, attempt, _) => Some(attempt.key)
    case _ => None
  }

  function CountLoss(audit: Audit, pc: Pc): Audit {
    var key := Unsaved(pc);
    if key.None? then audit else audit.(lost := audit.lost[key.value := Count(audit.lost, key.value) + 1])
  }

  // The end of the backoff a transaction writes, if it writes one.
  function NewBackoff(tx: Tx, g: Guard): Option<Time> {
    match tx
    case Postpone(_, _, attempt, _, until) => if Holds(g, attempt.key) then Some(until) else None
    case Bump(_, attempt, _, until) => if Holds(g, attempt.key) then Some(until) else None
    case Fail(_, _, _, _, _, _, _, until) => Some(until)
    case Defer(_, _, _, _, until) => Some(until)
    case _ => None
  }

  function Later(t: Option<Time>, u: Time): Time {
    if t.None? then u else Max(t.value, u)
  }

  function QuietEnd(audit: Audit, ref: string): Option<Time> {
    if ref in audit.quiet then Some(audit.quiet[ref]) else None
  }

  // The audit after a transaction has been written.
  function Record(audit: Audit, tx: Tx, s: State): Audit {
    var ref := Subject(tx);
    var g := if ref.Some? then GuardOf(s, ref.value) else BLANK;
    var until := if ref.Some? && ref.value in s.accounts then NewBackoff(tx, g) else None;
    var rejection, entry := Rejection(tx, s), Entry(tx, s);
    audit.(
    successes := if tx.Succeed? then audit.successes[tx.attempt.key := Success(tx.ref, tx.authIndex, tx.now)] else audit.successes,
    failures := if tx.Fail? && g.pending.Some? then audit.failures + {g.pending.value.key} else audit.failures,
    quiet := if until.Some? then audit.quiet[ref.value := Later(QuietEnd(audit, ref.value), until.value)] else audit.quiet,
    authQuiet := if rejection.Some? then Some(Later(audit.authQuiet, rejection.value.until)) else audit.authQuiet,
    history := if entry.Some? then audit.history + [entry.value] else audit.history)
  }

  predicate Written(w: World, tx: Tx, outcome: Outcome) {
    outcome != Lost && Refusal(tx, w.disk, w.active).None?
  }

  function Write(w: World, tx: Tx, outcome: Outcome): World {
    if Written(w, tx, outcome) then w.(disk := Apply(tx, w.disk), audit := Record(w.audit, tx, w.disk)) else w
  }

  function StoreStep(w: World, tx: Tx, outcome: Outcome): World
    requires AtStore(w.pc)
  {
    var done := Written(w, tx, outcome);
    var after := Write(w, tx, outcome);
    after.(pc := AfterStore(w.pc, w.cfg, done && outcome == Committed),
    audit := if done then after.audit else CountLoss(after.audit, w.pc))
  }

  function ConsumeStep(w: World, redeems: bool, reply: ConsumeReply): World
    requires w.pc.Spend?
  {
    var attempt, ref := w.pc.attempt, w.pc.job.item.ref;
    w.(pc := AfterConsume(w.pc, reply),
    server := if redeems
              then Server(w.server.redeemed + {attempt.creditId},
                          w.server.byKey[attempt.key := Redemption(ref, attempt.creditId, w.clock)])
              else w.server,
    audit := w.audit.(calls := w.audit.calls[attempt.key := Count(w.audit.calls, attempt.key) + 1]))
  }

  function ThreadStep(w: World, now: Time, op: Op): World
    requires OpEnabled(w, now, op)
  {
    match op
    case Load(item, trigger, ok) =>
      if !ok || item.ref !in w.disk.accounts then w
      else w.(pc := AskUsage(Job(item, trigger, now, w.disk.accounts[item.ref], w.disk.management)))
    case GetUsage(reply) => w.(pc := AfterUsage(w.pc, reply))
    case GetCredits(reply) => w.(pc := AfterCredits(w.pc, now, reply))
    case Consume(redeems, reply) => ConsumeStep(w, redeems, reply)
    case ResetQuota(reply) =>
      var next, clear := AfterClear(w.pc, now, reply), w.pc.clear;
      w.(pc := next,
      audit := if next.StoreCleared?
               then w.audit.(cleared := w.audit.cleared + {(w.pc.job.item.ref, clear.authIndex, clear.createdAt)})
               else w.audit)
    case Check(go, key) =>
      w.(pc := AfterCheck(w.pc, go, key),
      audit := if go && w.pc.Decide? && key.Some?
               then w.audit.(issued := w.audit.issued[key.value := Issue(w.pc.job.item.ref, w.pc.credit.id)])
               else w.audit)
    case Update(jitter, converted, outcome) => StoreStep(w, TxOf(w.pc, w.cfg, now, jitter, converted), outcome)
  }

  function Next(w: World, a: Action): World
    requires Enabled(w, a)
  {
    match a
    case Tick(to) => w.(clock := to)
    case Stop => w.(active := false)
    case Restart => w.(active := true, pc := Idle, audit := CountLoss(w.audit, w.pc))
    case Foreign(credit) => w.(server := w.server.(redeemed := w.server.redeemed + {credit}))
    case Edit(tx, outcome) => Write(w, tx, outcome)
    case Thread(now, op) => ThreadStep(w, now, op).(since := w.clock)
  }

  // ------------------------------------------------------------------ runs

  predicate Legal(start: World, run: seq<Action>)
    decreases |run|, 0
  {
    run == [] ||
    (Legal(start, run[..|run| - 1]) && Enabled(Exec(start, run[..|run| - 1]), run[|run| - 1]))
  }

  function Exec(start: World, run: seq<Action>): World
    requires Legal(start, run)
    decreases |run|, 1
  {
    if run == [] then start else Next(Exec(start, run[..|run| - 1]), run[|run| - 1])
  }

  // Some run leads from an empty state to `w`.
  ghost predicate Reached(w: World) {
    exists start, run :: Initial(start) && Legal(start, run) && Exec(start, run) == w
  }
}
