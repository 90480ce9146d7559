/** Properties that span two moments of a run: what stays, and how long the engine keeps quiet. */
module Deadlines {
  import opened Basics
  import opened Records
  import opened Codex
  import opened Transactions
  import opened Protocol
  import opened Invariant
  import opened Preservation
  import opened Theorems
  import Backoff

  // ------------------------------------------------------------- keys

  // Nothing the audit records is ever taken back.
  ghost predicate Grows(a: Audit, b: Audit) {
    && (forall k | k in a.issued :: k in b.issued && b.issued[k] == a.issued[k])
    && a.successes.Keys <= b.successes.Keys && a.failures <= b.failures && a.cleared <= b.cleared
    && (forall r | r in a.quiet :: r in b.quiet && a.quiet[r] <= b.quiet[r])
    && (a.authQuiet.Some? ==> b.authQuiet.Some? && a.authQuiet.value <= b.authQuiet.value)
    && a.history <= b.history
  }

  lemma StoreGrows(w: World, tx: Tx, outcome: Outcome)
    requires AtStore(w.pc)
    ensures Grows(w.audit, StoreStep(w, tx, outcome).audit)
  {
    RecordGrows(w.audit, tx, w.disk);
  }

  lemma RecordGrows(audit: Audit, tx: Tx, s: State)
    ensures Grows(audit, Record(audit, tx, s))
  {
  }

  lemma CheckGrows(w: World, now: Time, op: Op)
    requires OpEnabled(w, now, op) && op.Check?
    ensures Grows(w.audit, ThreadStep(w, now, op).audit)
  {
  }

  lemma AuditGrows(w: World, a: Action)
    requires Enabled(w, a)
    ensures Grows(w.audit, Next(w, a).audit)
  {
    match a {
      case Edit(tx, _) => RecordGrows(w.audit, tx, w.disk);
      case Thread(now, op) =>
        match op {
          case Update(jitter, converted, outcome) => StoreGrows(w, TxOf(w.pc, w.cfg, now, jitter, converted), outcome);
          case Check(_, _) => CheckGrows(w, now, op);
          case _ =>
        }
      case _ =>
    }
  }

  // A key stays bound to one account and one credit for ever. The attempt made with it, once on
  // disk, is the account's only attempt until it is closed, and a closed key never comes back.
  lemma {:induction false} KeyLife(w: World, run: seq<Action>, r: string, k: string)
    requires Inv(w) && Legal(w, run) && k in w.audit.issued
    requires Holds(GuardOf(w.disk, r), k) || Closed(w, k)
    ensures var v := Exec(w, run);
            && k in v.audit.issued && v.audit.issued[k] == w.audit.issued[k]
            && (Holds(GuardOf(v.disk, r), k) || Closed(v, k))
            && (Closed(v, k) ==> forall q :: !Holds(GuardOf(v.disk, q), k))
  {
    if run != [] {
      var front := run[..|run| - 1];
      var u := Exec(w, front);
      KeyLife(w, front, r, k);
      RunInv(w, front);
      AuditGrows(u, run[|run| - 1]);
      if Holds(GuardOf(u.disk, r), k) {
        AttemptStep(u, run[|run| - 1], r);
      }
    }
    RunInv(w, run);
    var v := Exec(w, run);
    forall q
      ensures Closed(v, k) ==> !Holds(GuardOf(v.disk, q), k)
    {
      assert AccountInv(v, q);
    }
  }

  // ------------------------------------------------------- tombstones

  lemma TombstonesStep(w: World, a: Action, r: string)
    requires Enabled(w, a)
    ensures GuardOf(w.disk, r).tombstones.Keys <= GuardOf(Next(w, a).disk, r).tombstones.Keys
  {
    match a {
      case Edit(tx, outcome) => TombstonesGrow(tx, w.disk, r);
      case Thread(now, Update(jitter, converted, outcome)) =>
        TombstonesGrow(TxOf(w.pc, w.cfg, now, jitter, converted), w.disk, r);
      case _ =>
    }
  }

  lemma {:induction false} TombstonesForever(w: World, run: seq<Action>, r: string)
    requires Legal(w, run)
    ensures GuardOf(w.disk, r).tombstones.Keys <= GuardOf(Exec(w, run).disk, r).tombstones.Keys
  {
    if run != [] {
      var front := run[..|run| - 1];
      TombstonesForever(w, front, r);
      TombstonesStep(Exec(w, front), run[|run| - 1], r);
    }
  }

  // A credit the service once refused for an account is never attempted for it again.
  lemma TombstonedNeverTried(w: World, run: seq<Action>, a: Action, r: string, credit: string)
    requires Inv(w) && Legal(w, run) && Enabled(Exec(w, run), a)
    requires Tombstoned(credit, GuardOf(w.disk, r).tombstones)
    requires Starts(Exec(w, run), Next(Exec(w, run), a), r)
    ensures GuardOf(Next(Exec(w, run), a).disk, r).pending.value.creditId != credit
  {
    RunInv(w, run);
    TombstonesForever(w, run, r);
    StartsAtStoreAttempt(Exec(w, run), a, r);
  }

  // ---------------------------------------------------------- backoff

  // The remote calls the gates of an account protect.
  predicate RemoteCall(op: Op) {
    op.GetCredits? || op.Consume?
  }

  lemma {:induction false} RunGrows(w: World, run: seq<Action>)
    requires Legal(w, run)
    ensures Grows(w.audit, Exec(w, run).audit)
  {
    if run != [] {
      RunGrows(w, run[..|run| - 1]);
      AuditGrows(Exec(w, run[..|run| - 1]), run[|run| - 1]);
    }
  }

  lemma QuietIsOver(v: World, now: Time, op: Op)
    requires Inv(v) && Enabled(v, Thread(now, op)) && RemoteCall(op)
    ensures var job := v.pc.job; QuietOver(v, job) && AuthOver(v, job) && job.now <= now
  {
  }

  lemma PauseIsOver(v: World, now: Time, op: Op)
    requires Inv(v) && Enabled(v, Thread(now, op)) && op.ResetQuota?
    ensures AuthOver(v, v.pc.job) && v.pc.job.now <= now
  {
  }

  // A backoff that was ever on disk is kept to the end, even once it has been overwritten: no later call for
  // credits and no later Consume belongs to a visit of the account that began before the backoff's end.
  lemma BackoffRespected(w: World, more: seq<Action>, now: Time, op: Op)
    requires Reached(w) && Legal(w, more) && Enabled(Exec(w, more), Thread(now, op)) && RemoteCall(op)
    ensures var job := Exec(w, more).pc.job; var g := GuardOf(w.disk, job.item.ref);
            g.backoff.Some? ==> g.backoff.value.until <= job.now <= now
  {
    Reachable(w);
    RunInv(w, more);
    RunGrows(w, more);
    QuietIsOver(Exec(w, more), now, op);
    assert QuietInv(w, Exec(w, more).pc.job.item.ref);
  }

  // A management pause that was ever on disk is kept for every account: nothing is cleared and no credit
  // is asked for or spent in a visit that began before its end.
  lemma PauseRespected(w: World, more: seq<Action>, now: Time, op: Op)
    requires Reached(w) && Legal(w, more) && Enabled(Exec(w, more), Thread(now, op)) && (RemoteCall(op) || op.ResetQuota?)
    ensures w.disk.management.Some? ==> w.disk.management.value.until <= Exec(w, more).pc.job.now <= now
  {
    Reachable(w);
    RunInv(w, more);
    RunGrows(w, more);
    if op.ResetQuota? {
      PauseIsOver(Exec(w, more), now, op);
    } else {
      QuietIsOver(Exec(w, more), now, op);
    }
  }

  // After an unclear reply the account keeps quiet for no less than the Retry-After the service asked for,
  // after a refusal for no less than half an hour; a rejected local clear pauses the engine for ten minutes.
  lemma BackoffLength(w: World, now: Time, jitter: Time, converted: Time)
    requires Inv(w) && Enabled(w, Thread(now, Update(jitter, converted, Committed)))
    ensures var tx := TxOf(w.pc, w.cfg, now, jitter, converted);
            && (w.pc.StoreAmbiguous? || w.pc.StoreDeferral? || w.pc.StoreFailure? ==>
                  ChangesGuard(tx) && tx.ref in w.disk.accounts && NewBackoff(tx, GuardOf(w.disk, tx.ref)).Some?)
            && ((w.pc.StoreAmbiguous? || w.pc.StoreDeferral?) && w.pc.failure.retryAfter.Some? ==>
                  now + w.pc.failure.retryAfter.value <= NewBackoff(tx, GuardOf(w.disk, tx.ref)).value)
            && (w.pc.StoreFailure? ==> now + 30 * MINUTE <= NewBackoff(tx, GuardOf(w.disk, tx.ref)).value)
            && (w.pc.StoreUncleared? && w.pc.auth ==>
                  Rejection(tx, w.disk) == Some(Cooldown(w.pc.now + 10 * MINUTE, "management_auth_failed")))
  {
    TxJustified(w, now, jitter, converted);
    match w.pc {
      case StoreAmbiguous(_, attempt, failure) =>
        if failure.retryAfter.Some? {
          Backoff.TransientAtLeastRetryAfter(failure.retryAfter.value, attempt.verificationCount + 1,
                                             w.cfg.failureBackoff, jitter, converted);
        }
      case StoreDeferral(_, _, failure) =>
        if failure.retryAfter.Some? {
          Backoff.TransientAtLeastRetryAfter(failure.retryAfter.value, 1, w.cfg.failureBackoff, jitter, converted);
        }
      case StoreFailure(_, _, _, _, _) =>
        Backoff.LogicalFailureDelay(w.cfg.failureBackoff, jitter, converted);
      case _ =>
    }
  }

  // The backoff after a failed reading, or after an unclear reply without Retry-After, doubles with the stored
  // count up to six hours, on every platform, if and only if the product fits an int64.
  lemma RetriedBackoffExactIff(w: World, now: Time, jitter: Time)
    requires Inv(w) && (w.pc.StoreBump? || (w.pc.StoreAmbiguous? && w.pc.failure.retryAfter.None?))
    ensures var g := GuardOf(w.disk, w.pc.job.item.ref);
            var product := w.cfg.failureBackoff * Backoff.Pow2(w.pc.attempt.verificationCount);
            (forall converted | Backoff.IsInt64(converted) ::
               NewBackoff(TxOf(w.pc, w.cfg, now, jitter, converted), g)
               == Some(now + Min(product, Backoff.LONGEST_BACKOFF) + jitter))
            <==> product < Backoff.INT64_LIMIT
  {
    var g := GuardOf(w.disk, w.pc.job.item.ref);
    var level, base := w.pc.attempt.verificationCount + 1, w.cfg.failureBackoff;
    Backoff.DurationExact(level, base, Backoff.LONGEST_BACKOFF, jitter);
    forall converted
      ensures NewBackoff(TxOf(w.pc, w.cfg, now, jitter, converted), g)
              == Some(now + Backoff.Duration(level, base, Backoff.LONGEST_BACKOFF, jitter, converted))
    {
    }
  }

  // ------------------------------------------------- the displayed deadline

  // The next instant shown for an account; the zero instant means none: `internal/web/handler.go`.
  function NextAllowed(g: Guard): Time {
    Max(Max(Max(ZERO_TIME, CooldownUntil(g.cooldown)), BackoffUntil(g.backoff)), ClearUntil(g.localClear))
  }

  // A deadline that was shown is in the past or still shown.
  predicate Shown(w: World, r: string, deadline: Time) {
    deadline <= w.since || deadline <= NextAllowed(GuardOf(w.disk, r))
  }

  // When the thread is about to change a guard, the deadlines it replaces are over.
  lemma DeadlinesOver(w: World, tx: Tx)
    requires ThreadInv(w) && AtStore(w.pc) && ChangesGuard(tx)
    requires exists now, jitter, converted :: tx == TxOf(w.pc, w.cfg, now, jitter, converted)
    ensures var g := GuardOf(w.disk, tx.ref);
            && (tx.Cleared? || tx.Uncleared? ==> ClearUntil(g.localClear) <= w.since)
            && (!tx.Cleared? && !tx.Uncleared? ==> g.localClear.None?
                                                   && (g.cooldown.Some? ==> g.cooldown.value.until <= w.since)
                                                   && (g.backoff.Some? ==> g.backoff.value.until <= w.since))
  {
  }

  lemma ShownStep(w: World, a: Action, r: string, deadline: Time)
    requires Inv(w) && Enabled(w, a) && ZERO_TIME < deadline && Shown(w, r, deadline)
    ensures Shown(Next(w, a), r, deadline)
  {
    GuardStep(w, a, r);
    if GuardOf(Next(w, a).disk, r) != GuardOf(w.disk, r) {
      DeadlinesOver(w, TxOf(w.pc, w.cfg, a.now, a.op.jitter, a.op.converted));
    }
  }

  lemma {:induction false} ShownRun(w: World, run: seq<Action>, r: string, deadline: Time)
    requires Inv(w) && Legal(w, run) && ZERO_TIME < deadline && Shown(w, r, deadline)
    ensures Shown(Exec(w, run), r, deadline)
  {
    if run != [] {
      var front := run[..|run| - 1];
      ShownRun(w, front, r, deadline);
      RunInv(w, front);
      ShownStep(Exec(w, front), run[|run| - 1], r, deadline);
    }
  }

  // The deadline shown for an account at any moment is kept: no later Consume for it comes earlier.
  lemma DisplayedDeadline(w: World, more: seq<Action>, now: Time, redeems: bool, reply: ConsumeReply)
    requires Reached(w) && Legal(w, more) && Enabled(Exec(w, more), Thread(now, Consume(redeems, reply)))
    ensures var v := Exec(w, more); var shown := NextAllowed(GuardOf(w.disk, v.pc.job.item.ref));
            shown != ZERO_TIME ==> shown <= now
  {
    Reachable(w);
    var v := Exec(w, more);
    var shown := NextAllowed(GuardOf(w.disk, v.pc.job.item.ref));
    RunInv(w, more);
    if shown != ZERO_TIME {
      ShownRun(w, more, v.pc.job.item.ref, shown);
    }
  }
}
