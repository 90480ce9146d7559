/** What every reachable state of the protocol satisfies. */
module Invariant {
  import opened Basics
  import opened Records
  import opened Codex
  import opened Transactions
  import opened Protocol
  import Fingerprint

  // ------------------------------------------------------- the engine thread

  // Since loading, nobody else has touched what the thread relies on: the guard on disk is `g`.
  predicate Fresh(w: World, job: Job, g: Guard) {
    && job.item.ref in w.disk.accounts && GuardOf(w.disk, job.item.ref) == g
    && w.disk.management == job.management && job.now <= w.since
  }

  predicate Unpaused(job: Job) {
    job.management.Some? ==> !Running(job.management.value.until, job.now)
  }

  // All gates of `processAccount` let the job through.
  predicate Gated(job: Job) {
    && job.snap.profile.participating && !job.item.disabled && Unpaused(job)
    && job.snap.guard.localClear.None? && !Cooling(job.snap.guard, job.now) && !BackingOff(job.snap.guard, job.now)
  }

  // The thread is looking for a credit to start a new attempt with.
  predicate Searching(w: World, job: Job) {
    Gated(job) && job.snap.guard.pending.None? && Fresh(w, job, job.snap.guard)
  }

  // The thread is working on `attempt`, which is exactly the attempt on disk.
  predicate Working(w: World, job: Job, attempt: Attempt) {
    Gated(job) && Fresh(w, job, job.snap.guard.(pending := Some(attempt)))
  }

  predicate Clearing(w: World, job: Job, clear: LocalClear) {
    && Unpaused(job) && job.item.ref in w.disk.accounts
    && w.disk.management == job.management && job.now <= w.since
    && GuardOf(w.disk, job.item.ref).pending.None?
    && GuardOf(w.disk, job.item.ref).localClear == Some(clear)
  }

  // The rule that lets a credit be spent.
  predicate Eligible(cfg: Config, createdAt: Time, expiresAt: Time, usedPercent: real, blocked: bool) {
    && createdAt < expiresAt
    && (blocked
        || (expiresAt - createdAt <= CANDIDATE_WINDOW
            && (usedPercent >= cfg.resetThreshold
                || (expiresAt - createdAt <= PROTECTION_WINDOW && usedPercent > 0.0))))
  }

  predicate EligibleAttempt(cfg: Config, a: Attempt) {
    Eligible(cfg, a.createdAt, a.expiresAt, a.preUsedPercent, a.preBlocked)
  }

  predicate Pickable(job: Job, credit: Credit) {
    credit.expiresAt > job.now && !Tombstoned(credit.id, job.snap.guard.tombstones)
  }

  predicate NewFingerprint(g: Guard, fingerprint: string) {
    g.backoff.Some? ==> g.backoff.value.fingerprint != fingerprint
  }

  // A key that has been made but not yet used for anything.
  predicate Unused(w: World, key: string) {
    && key !in w.server.byKey && key !in w.audit.successes && key !in w.audit.failures
    && Count(w.audit.calls, key) == 0
  }

  // No redemption by this key is later than `at`.
  predicate RedeemedBy(w: World, key: string, at: Time) {
    key in w.server.byKey ==> w.server.byKey[key].at <= at
  }

  predicate ThreadInv(w: World) {
    match w.pc
    case Idle => true
    case AskUsage(job) => Fresh(w, job, job.snap.guard)
    case StoreUsage(job, _) => Fresh(w, job, job.snap.guard)
    case LeaveNote(_, _) => true
    case AskCredits(job, _) => Searching(w, job)
    case StoreCredits(job, _, list) => Searching(w, job) && Listing(list, job.now)
    case NoteCredit(job, _, credit) => Searching(w, job) && Pickable(job, credit)
    case Recheck(job, usage, credit) =>
      Searching(w, job) && Pickable(job, credit)
      && Eligible(w.cfg, job.now, credit.expiresAt, usage.usedPercent, usage.blocked)
    case Decide(job, usage, credit, count) =>
      Searching(w, job) && Pickable(job, credit)
      && Eligible(w.cfg, job.now, credit.expiresAt, usage.usedPercent, usage.blocked)
      && NewFingerprint(job.snap.guard, Fingerprint.Of(job.item.ref, credit.ref, usage, count))
    case StoreAttempt(job, attempt) =>
      Searching(w, job) && attempt.createdAt == job.now && attempt.verificationCount == 0
      && EligibleAttempt(w.cfg, attempt) && !Tombstoned(attempt.creditId, job.snap.guard.tombstones)
      && NewFingerprint(job.snap.guard, attempt.fingerprint)
      && attempt.key in w.audit.issued && w.audit.issued[attempt.key] == Issue(job.item.ref, attempt.creditId)
      && Unused(w, attempt.key)
    case StoreDeferral(job, _, _) => Searching(w, job)
    case Spend(job, attempt) => Working(w, job, attempt) && attempt.verificationCount < MAXIMUM_VERIFICATION_TRIES
    case VerifyCredits(job, attempt) => Working(w, job, attempt)
    case VerifyUsage(job, attempt, list) =>
      Working(w, job, attempt) && (Contains(list.available, attempt.creditId) ==> attempt.key !in w.server.byKey)
    case MayRetry(job, attempt) => Working(w, job, attempt) && attempt.verificationCount < MAXIMUM_VERIFICATION_TRIES
    case ConfirmCredits(job, attempt, _, _) => Working(w, job, attempt)
    case ConfirmUsage(job, attempt, _, _, now, _) =>
      Working(w, job, attempt) && RedeemedBy(w, attempt.key, now) && attempt.createdAt <= now <= w.since
    case StoreSuccess(job, attempt, _, _, now) =>
      Working(w, job, attempt) && RedeemedBy(w, attempt.key, now) && attempt.createdAt <= now <= w.since
    case StoreFailure(job, attempt, _, _, _) => Working(w, job, attempt) && attempt.key !in w.server.byKey
    case StoreAmbiguous(job, attempt, _) =>
      Working(w, job, attempt) && attempt.verificationCount < MAXIMUM_VERIFICATION_TRIES
    case StoreBump(job, attempt, _) => Working(w, job, attempt)
    case ClearQuota(job, clear) => Clearing(w, job, clear)
    case StoreCleared(job, clear, now) =>
      Clearing(w, job, clear) && clear.nextRetryAt <= now <= w.since
      && (job.item.ref, clear.authIndex, clear.createdAt) in w.audit.cleared
    case StoreUncleared(job, clear, now, _) => Clearing(w, job, clear) && clear.nextRetryAt <= now <= w.since
  }

  // ------------------------------------------------------ accounts and keys

  predicate PendingInv(w: World, r: string, a: Attempt) {
    && a.key in w.audit.issued && w.audit.issued[a.key] == Issue(r, a.creditId)
    && a.key !in w.audit.successes && a.key !in w.audit.failures
    && a.createdAt <= w.since && EligibleAttempt(w.cfg, a)
    && (GuardOf(w.disk, r).cooldown.Some? ==> GuardOf(w.disk, r).cooldown.value.until <= a.createdAt)
  }

  predicate AccountInv(w: World, r: string) {
    var g := GuardOf(w.disk, r);
    && (g.pending.Some? ==> g.localClear.None? && PendingInv(w, r, g.pending.value))
  }

  // Every redemption is accounted for: its attempt is still pending, or was committed as a success.
  predicate RedemptionInv(w: World, k: string) {
    k in w.server.byKey ==>
      var d := w.server.byKey[k];
      && k in w.audit.issued && w.audit.issued[k] == Issue(d.ref, d.credit)
      && d.credit in w.server.redeemed && d.at <= w.since && k !in w.audit.failures
      && (Holds(GuardOf(w.disk, d.ref), k)
          || (k in w.audit.successes && w.audit.successes[k].ref == d.ref && d.at <= w.audit.successes[k].at))
  }

  predicate Discharged(w: World, s: Success) {
    (s.ref, s.authIndex, s.at) in w.audit.cleared
  }

  predicate Owed(w: World, s: Success) {
    var c := GuardOf(w.disk, s.ref).localClear;
    c.Some? && c.value.authIndex == s.authIndex && c.value.createdAt == s.at
  }

  predicate SuccessInv(w: World, k: string) {
    k in w.audit.successes ==>
      var s := w.audit.successes[k];
      && k in w.audit.issued && w.audit.issued[k].ref == s.ref && k !in w.audit.failures && s.at <= w.since
      && GuardOf(w.disk, s.ref).cooldown.Some?
      && s.at + w.cfg.postResetCooldown <= GuardOf(w.disk, s.ref).cooldown.value.until
      && (Discharged(w, s) || Owed(w, s))
  }

  predicate FailureInv(w: World, k: string) {
    k in w.audit.failures ==> k in w.audit.issued
  }

  // Two redemptions of one account are at least a cooldown apart.
  predicate Apart(w: World, j: string, k: string) {
    j in w.server.byKey && k in w.server.byKey && j != k && w.server.byKey[j].ref == w.server.byKey[k].ref ==>
      || w.server.byKey[j].at + w.cfg.postResetCooldown <= w.server.byKey[k].at
      || w.server.byKey[k].at + w.cfg.postResetCooldown <= w.server.byKey[j].at
  }

  // Consume calls per key, against the verification count and the lost updates.
  predicate CallInv(w: World, k: string) {
    var calls, lost := Count(w.audit.calls, k), Count(w.audit.lost, k);
    && calls <= MAXIMUM_VERIFICATION_TRIES + lost
    && (k !in w.audit.issued ==> calls == 0)
    && (k in w.audit.issued ==>
          var g := GuardOf(w.disk, w.audit.issued[k].ref);
          Holds(g, k) ==> calls <= lost + g.pending.value.verificationCount + (if Unsaved(w.pc) == Some(k) then 1 else 0))
  }

  // ------------------------------------------------------------ quiet periods

  // A time that lies in the past, or that a running deadline still guards.
  predicate Guarded(t: Time, since: Time, deadline: Option<Time>) {
    t <= since || (deadline.Some? && t <= deadline.value)
  }

  function BackoffEnd(g: Guard): Option<Time> {
    if g.backoff.Some? then Some(g.backoff.value.until) else None
  }

  function PauseEnd(c: Option<Cooldown>): Option<Time> {
    if c.Some? then Some(c.value.until) else None
  }

  predicate QuietInv(w: World, r: string) {
    var end := BackoffEnd(GuardOf(w.disk, r));
    && (r in w.audit.quiet ==> Guarded(w.audit.quiet[r], w.since, end))
    && (end.Some? ==> r in w.audit.quiet && end.value <= w.audit.quiet[r])
  }

  predicate AuthInv(w: World) {
    var end := PauseEnd(w.disk.management);
    && (w.audit.authQuiet.Some? ==> Guarded(w.audit.authQuiet.value, w.since, end))
    && (end.Some? ==> w.audit.authQuiet.Some? && end.value <= w.audit.authQuiet.value)
  }

  // What the thread's job knows about quiet periods: before the gates, and after them.
  predicate JobQuiet(w: World) {
    match w.pc
    case Idle => true
    case LeaveNote(_, _) => true
    case AskUsage(job) => JobMayPass(w, job)
    case StoreUsage(job, _) => JobMayPass(w, job)
    case ClearQuota(job, _) => AuthOver(w, job)
    case StoreCleared(job, _, _) => AuthOver(w, job)
    case StoreUncleared(job, _, _, _) => AuthOver(w, job)
    case pc => AuthOver(w, pc.job) && QuietOver(w, pc.job)
  }

  predicate JobMayPass(w: World, job: Job) {
    && (w.audit.authQuiet.Some? ==> Guarded(w.audit.authQuiet.value, job.now, PauseEnd(job.management)))
    && (job.item.ref in w.audit.quiet ==>
          Guarded(w.audit.quiet[job.item.ref], job.now, BackoffEnd(job.snap.guard)))
  }

  predicate AuthOver(w: World, job: Job) {
    w.audit.authQuiet.Some? ==> w.audit.authQuiet.value <= job.now
  }

  predicate QuietOver(w: World, job: Job) {
    job.item.ref in w.audit.quiet ==> w.audit.quiet[job.item.ref] <= job.now
  }

  // ------------------------------------------------------------------- all

  predicate LogInv(w: World) {
    w.disk.logs == Newest(w.audit.history, MAX_LOGS)
  }

  predicate Base(w: World) {
    ValidConfig(w.cfg) && w.since <= w.clock && LogInv(w)
  }

  ghost predicate Inv(w: World) {
    && Base(w) && ThreadInv(w) && JobQuiet(w) && AuthInv(w)
    && (forall r :: AccountInv(w, r))
    && (forall r :: QuietInv(w, r))
    && (forall k :: RedemptionInv(w, k))
    && (forall k :: SuccessInv(w, k))
    && (forall k :: FailureInv(w, k))
    && (forall k :: CallInv(w, k))
    && (forall j, k :: Apart(w, j, k))
  }

  lemma InitialInv(w: World)
    requires Initial(w)
    ensures Inv(w)
  {
  }
}
