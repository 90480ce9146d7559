/** Where each decision of the engine leads, in numbers: the reference for the decisions of `Protocol`. */
module Rules {
  import opened Basics
  import opened Text
  import opened Records
  import opened Codex
  import opened CreditRules
  import opened Discovery
  import opened Transactions
  import opened Protocol
  import opened Invariant
  import opened Preservation
  import opened Theorems
  import Fingerprint
  import Deadlines

  lemma Constants()
    ensures MINUTE == 60_000_000_000 && HOUR == 3_600_000_000_000 && MAX_LOGS == 500 && MAXIMUM_VERIFICATION_TRIES == 2
    ensures MANAGEMENT_AUTH_COOLDOWN == 10 * MINUTE
  {
  }

  // ----------------------------------------------------------------- gates

  // The account takes part, is enabled, and no pause of the whole engine is running.
  predicate Admitted(job: Job) {
    && job.snap.profile.participating && !job.item.disabled
    && (job.management.None? || job.management.value.until <= job.now)
  }

  predicate CooldownOver(job: Job) {
    job.snap.guard.cooldown.None? || job.snap.guard.cooldown.value.until <= job.now
  }

  predicate BackoffOver(job: Job) {
    job.snap.guard.backoff.None? || job.snap.guard.backoff.value.until <= job.now
  }

  // The step that takes the thread past the reading of the usage.
  predicate PassesUsage(w: World, a: Action) {
    && a.Thread?
    && ((w.pc.AskUsage? && a.op.GetUsage? && a.op.usage.Err?) || (w.pc.StoreUsage? && a.op.Update?))
  }

  // A visit begins with the account as it is on disk.
  lemma LoadIff(w: World, a: Action)
    requires Enabled(w, a) && w.pc.Idle? && a.Thread?
    ensures var item, v := a.op.item, Next(w, a);
            && v.pc == (if a.op.ok && item.ref in w.disk.accounts
                        then AskUsage(Job(item, a.op.trigger, a.now, w.disk.accounts[item.ref], w.disk.management)) else Idle)
            && v == w.(pc := v.pc, since := w.clock)
  {
  }

  // A visit that a gate ends leaves a note of it, but for a pause and a backoff.
  lemma GateNotes(w: World, a: Action)
    requires Enabled(w, a) && PassesUsage(w, a)
    ensures var job, pc := w.pc.job, Next(w, a).pc; var g := job.snap.guard;
            && (!job.snap.profile.participating ==>
                  pc == LeaveNote(job, LogEntry(job.now, "account_skipped_not_participating", trigger := job.trigger,
                                                accountRef := job.item.ref, participating := false, decision := "skip")))
            && (job.snap.profile.participating && job.item.disabled ==>
                  pc == LeaveNote(job, LogEntry(job.now, "reset_deferred", trigger := job.trigger,
                                                accountRef := job.item.ref, participating := true, decision := "disabled")))
            && (Admitted(job) && g.localClear.None? && !CooldownOver(job) ==>
                  pc == LeaveNote(job, LogEntry(job.now, "reset_suppressed_cooldown", trigger := job.trigger,
                                                accountRef := job.item.ref, participating := true,
                                                nextAttemptAt := g.cooldown.value.until)))
  {
  }

  // What the gates let through: first what is owed, then what is pending, then a new attempt.
  lemma GatesIff(w: World, a: Action)
    requires Enabled(w, a) && PassesUsage(w, a)
    ensures var job, pc := w.pc.job, Next(w, a).pc; var g := job.snap.guard;
            && (pc.ClearQuota? <==> Admitted(job) && g.localClear.Some?)
            && (pc.VerifyCredits? <==>
                  Admitted(job) && g.localClear.None? && CooldownOver(job) && BackoffOver(job) && g.pending.Some?)
            && (pc.AskCredits? <==>
                  Admitted(job) && g.localClear.None? && CooldownOver(job) && BackoffOver(job) && g.pending.None?)
            && (pc.ClearQuota? ==> pc.job == job && pc.clear == g.localClear.value)
            && (pc.VerifyCredits? ==> pc.job == job && pc.attempt == g.pending.value)
            && (pc.AskCredits? ==> pc.job == job && pc.reply == if w.pc.StoreUsage? then Ok(w.pc.usage) else a.op.usage)
  {
  }

  // A usage that was read is stored first.
  lemma UsageIsStored(w: World, a: Action)
    requires Enabled(w, a) && w.pc.AskUsage? && a.Thread? && a.op.usage.Ok?
    ensures Next(w, a).pc == StoreUsage(w.pc.job, a.op.usage.value)
  {
  }

  // -------------------------------------------------------- a new attempt

  // The credit is worth spending: the account is blocked; or the credit expires within six hours and the usage has
  // reached the threshold; or it expires within half an hour and anything has been used at all.
  predicate MeetsRule(threshold: real, usage: Usage, expiresAt: Time, now: Time) {
    || usage.blocked
    || (expiresAt - now <= 6 * HOUR && usage.usedPercent >= threshold)
    || (expiresAt - now <= 30 * MINUTE && usage.usedPercent > 0.0)
  }

  // The foremost credit is looked at, if there is one.
  lemma ChoiceIff(w: World, a: Action, c: Credit)
    requires Reached(w) && Enabled(w, a) && w.pc.StoreCredits? && a.Thread?
    ensures var pc, job := Next(w, a).pc, w.pc.job;
            Foremost(c, w.pc.list.available, job.snap.guard.tombstones) <==> pc == NoteCredit(job, w.pc.reply, c)
  {
    Reachable(w);
    FirstUsableIff(w.pc.list, w.pc.job.now, w.pc.job.snap.guard.tombstones, c);
  }

  // It goes on to be spent if and only if the usage was read and the rule is met; what happens otherwise.
  lemma SpendingIff(w: World, a: Action)
    requires Enabled(w, a) && w.pc.NoteCredit? && a.Thread?
    ensures var job, reply, credit, pc := w.pc.job, w.pc.reply, w.pc.credit, Next(w, a).pc;
            && (pc.Recheck? <==> reply.Ok? && MeetsRule(w.cfg.resetThreshold, reply.value, credit.expiresAt, job.now))
            && (pc.Recheck? ==> pc == Recheck(job, reply.value, credit))
            && (pc.Idle? <==> credit.expiresAt - job.now > 6 * HOUR && !(reply.Ok? && reply.value.blocked))
            && (pc.StoreDeferral? <==> credit.expiresAt - job.now <= 6 * HOUR && reply.Err?)
            && (pc.LeaveNote? ==>
                  pc.entry == LogEntry(job.now, "reset_deferred", trigger := job.trigger, accountRef := job.item.ref,
                                       participating := true, creditRef := credit.ref, decision := "below_threshold"))
  {
  }

  // The second look: the credit must still be the one to spend, and the fingerprint must be new.
  lemma RecheckIff(w: World, a: Action)
    requires Enabled(w, a) && w.pc.Recheck? && a.Thread? && a.op.credits.Ok?
    ensures var job, list, pc := w.pc.job, a.op.credits.value, Next(w, a).pc; var g := job.snap.guard;
            && (pc.Decide? <==>
                  && (exists c | c in list.available :: c.id == w.pc.credit.id && Foremost(c, list.available, g.tombstones))
                  && BackoffOver(job)
                  && (g.backoff.Some? ==>
                        g.backoff.value.fingerprint
                        != Fingerprint.Of(job.item.ref, w.pc.credit.ref, w.pc.usage, list.availableCount)))
            && (pc.Decide? ==> pc == Decide(job, w.pc.usage, w.pc.credit, list.availableCount))
            && (!pc.Decide? ==> pc.Idle?)
  {
    var list, tombstones := a.op.credits.value, w.pc.job.snap.guard.tombstones;
    var first := FirstUsable(list.available, tombstones);
    if first.Some? {
      FirstUsableIff(list, w.pc.job.now, tombstones, first.value);
    }
    forall c | c in list.available && Foremost(c, list.available, tombstones)
      ensures first == Some(c)
    {
      FirstUsableIff(list, w.pc.job.now, tombstones, c);
    }
  }

  // The attempt that is made says what was read, and what for.
  lemma AttemptRecords(w: World, a: Action)
    requires Enabled(w, a) && w.pc.Decide? && a.Thread?
    ensures var job, credit, usage, v := w.pc.job, w.pc.credit, w.pc.usage, Next(w, a);
            if a.op.go && a.op.key.Some? then
              && v.pc.StoreAttempt? && v.pc.job == job
              && var p := v.pc.attempt;
                 && p.key == a.op.key.value && p.creditId == credit.id && p.creditRef == credit.ref
                 && p.createdAt == job.now && p.expiresAt == credit.expiresAt && p.phase == "persisted"
                 && p.preUsedPercent == usage.usedPercent && p.preBlocked == usage.blocked
                 && p.preAvailableCount == w.pc.count && p.verificationCount == 0
                 && p.fingerprint == Fingerprint.Of(job.item.ref, credit.ref, usage, w.pc.count)
                 && p.key in v.audit.issued && v.audit.issued[p.key] == Issue(job.item.ref, credit.id)
                 && p.key !in w.audit.issued
            else v.pc.Idle?
  {
  }

  // ----------------------------------------------------- a pending attempt

  predicate Lists(list: CreditList, id: string) {
    exists c | c in list.available :: c.id == id
  }

  // Both readings are needed; a credit that is gone means success, a count of two means giving up.
  lemma VerificationIff(w: World, a: Action)
    requires Enabled(w, a) && (w.pc.VerifyCredits? || w.pc.VerifyUsage?) && a.Thread?
    ensures var job, p, pc := w.pc.job, w.pc.attempt, Next(w, a).pc;
            if w.pc.VerifyCredits?
            then pc == (if a.op.credits.Ok? then VerifyUsage(job, p, a.op.credits.value)
                        else StoreBump(job, p, "credit_verify_failed"))
            else if a.op.usage.Err? then pc == StoreBump(job, p, "usage_verify_failed")
            else && (pc.ConfirmCredits? <==> !Lists(w.pc.list, p.creditId))
                 && (pc.MayRetry? <==> Lists(w.pc.list, p.creditId) && p.verificationCount < 2)
                 && (pc.StoreFailure? <==> Lists(w.pc.list, p.creditId) && p.verificationCount >= 2)
                 && pc.job == job && pc.attempt == p
                 && (pc.StoreFailure? ==> pc.outcome == "ambiguous_verification_exhausted" && !pc.tombstone)
                 && (pc.ConfirmCredits? ==> pc.outcome == "verified_credit_consumed")
  {
  }

  // A pending attempt is sent again exactly when the engine is not stopped or cancelled.
  lemma RetryIff(w: World, a: Action)
    requires Enabled(w, a) && w.pc.MayRetry? && a.Thread?
    ensures Next(w, a).pc == if a.op.go then Spend(w.pc.job, w.pc.attempt) else Idle
  {
  }

  // What each reply of Consume leads to. Only `no_credit` asks for a tombstone.
  lemma ReplyIff(w: World, a: Action)
    requires Enabled(w, a) && w.pc.Spend? && a.Thread?
    ensures var job, p, pc := w.pc.job, w.pc.attempt, Next(w, a).pc;
            && (a.op.code.Err? ==> pc == StoreAmbiguous(job, p, a.op.code.error))
            && (a.op.code == Ok(Reset) ==> pc == ConfirmCredits(job, p, "reset", true))
            && (a.op.code == Ok(AlreadyRedeemed) ==> pc == ConfirmCredits(job, p, "already_redeemed", true))
            && (a.op.code == Ok(NothingToReset) ==> pc == StoreFailure(job, p, "nothing_to_reset", false, true))
            && (a.op.code == Ok(NoCredit) ==> pc == StoreFailure(job, p, "no_credit", true, true))
  {
  }

  // A success is recorded as verified if and only if both readings after it were answered, the credit is gone or the
  // count has fallen, and the usage has fallen or the block is lifted.
  lemma VerifiedIff(w: World, a: Action)
    requires Enabled(w, a) && w.pc.ConfirmUsage? && a.Thread?
    ensures var p, credits, usage, pc := w.pc.attempt, w.pc.credits, a.op.usage, Next(w, a).pc;
            && pc == StoreSuccess(w.pc.job, p, pc.outcome, w.pc.spent, w.pc.now)
            && (pc.outcome == w.pc.outcome + "_verified" <==>
                  && credits.Ok? && usage.Ok?
                  && (!Lists(credits.value, p.creditId) || credits.value.availableCount < p.preAvailableCount)
                  && (usage.value.usedPercent < p.preUsedPercent || (p.preBlocked && !usage.value.blocked)))
            && (pc.outcome == w.pc.outcome + "_verified" || pc.outcome == w.pc.outcome + "_unverified")
  {
    var yes, no := w.pc.outcome + "_verified", w.pc.outcome + "_unverified";
    assert |yes| != |no|;
  }

  // ---------------------------------------------------------- local clears

  // A clear is sent when its retry is due; success, a rejection and any other failure go their own ways.
  lemma ClearingIff(w: World, a: Action)
    requires Enabled(w, a) && w.pc.ClearQuota? && a.Thread?
    ensures var job, clear, pc := w.pc.job, w.pc.clear, Next(w, a).pc;
            && (pc.Idle? <==> a.now < clear.nextRetryAt)
            && (a.now >= clear.nextRetryAt ==>
                  pc == match a.op.clearing
                        case ClearDone => StoreCleared(job, clear, a.now)
                        case ClearUnauthorized => StoreUncleared(job, clear, a.now, true)
                        case ClearFailed => StoreUncleared(job, clear, a.now, false))
  {
  }

  // A success goes on to its local clear, owed from the instant of the success.
  lemma SuccessIsCleared(w: World, a: Action)
    requires Reached(w) && Enabled(w, a) && w.pc.StoreSuccess? && a.Thread?
    ensures Next(w, a).pc ==
            if a.op.outcome == Committed
            then ClearQuota(w.pc.job, LocalClear(w.pc.job.item.authIndex, w.pc.now, w.pc.now, 0)) else Idle
  {
    Reachable(w);
    assert AccountInv(w, w.pc.job.item.ref);
  }

  // The deadline shown for an account is over exactly when its cooldown, its backoff and the retry of its clear are.
  lemma ShownIff(job: Job)
    requires ZERO_TIME <= job.now
    ensures Deadlines.NextAllowed(job.snap.guard) <= job.now <==>
            && CooldownOver(job) && BackoffOver(job)
            && (job.snap.guard.localClear.Some? ==> job.snap.guard.localClear.value.nextRetryAt <= job.now)
  {
  }
}
