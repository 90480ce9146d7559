/** What holds in every state that some run of the protocol reaches from the empty state. */
module Theorems {
  import opened Basics
  import opened Records
  import opened Codex
  import opened Transactions
  import opened Protocol
  import opened Invariant
  import opened Preservation
  import Backoff
  import Fingerprint

  lemma EndOfRun(start: World, run: seq<Action>)
    requires Initial(start) && Legal(start, run)
    ensures Reached(Exec(start, run)) && Inv(Exec(start, run))
  {
    InitialInv(start);
    RunInv(start, run);
  }

  // The clock is never behind the thread, and the configuration stays valid.
  lemma ClockAhead(start: World, run: seq<Action>)
    requires Initial(start) && Legal(start, run)
    ensures var w := Exec(start, run); w.since <= w.clock && ValidConfig(w.cfg)
  {
    EndOfRun(start, run);
  }

  lemma Reachable(w: World)
    requires Reached(w)
    ensures Inv(w)
  {
    var start, run :| Initial(start) && Legal(start, run) && Exec(start, run) == w;
    EndOfRun(start, run);
  }

  // The configuration never changes.
  lemma {:induction false} FixedConfig(start: World, run: seq<Action>)
    requires Legal(start, run)
    ensures Exec(start, run).cfg == start.cfg
  {
    if run != [] {
      FixedConfig(start, run[..|run| - 1]);
    }
  }

  // Any two redemptions the engine causes on one account lie at least a cooldown apart.
  lemma RedemptionSpacing(w: World, j: string, k: string)
    requires Reached(w)
    requires var d := w.server.byKey; j in d && k in d && j != k && d[j].ref == d[k].ref
    ensures var d := w.server.byKey;
            || d[j].at + w.cfg.postResetCooldown <= d[k].at
            || d[k].at + w.cfg.postResetCooldown <= d[j].at
  {
    Reachable(w);
    assert Apart(w, j, k);
  }

  // Every redemption belongs to the attempt pending on disk or to a committed success, for the
  // account and credit its key was made for; no redeemed key was ever closed as a failure.
  lemma Conservation(w: World, k: string)
    requires Reached(w) && k in w.server.byKey
    ensures var d := w.server.byKey[k];
            && k in w.audit.issued && w.audit.issued[k] == Issue(d.ref, d.credit) && k !in w.audit.failures
            && (|| (Holds(GuardOf(w.disk, d.ref), k) && GuardOf(w.disk, d.ref).pending.value.creditId == d.credit)
                || (k in w.audit.successes && w.audit.successes[k].ref == d.ref && d.at <= w.audit.successes[k].at))
  {
    Reachable(w);
    assert RedemptionInv(w, k) && AccountInv(w, w.server.byKey[k].ref);
  }

  // Whenever Consume is called, the attempt with exactly that credit and key is on disk.
  lemma WriteAhead(w: World, now: Time, redeems: bool, reply: ConsumeReply)
    requires Reached(w) && Enabled(w, Thread(now, Consume(redeems, reply)))
    ensures var a := w.pc.attempt;
            && GuardOf(w.disk, w.pc.job.item.ref).pending == Some(a)
            && a.key in w.audit.issued && w.audit.issued[a.key] == Issue(w.pc.job.item.ref, a.creditId)
            && a.key !in w.audit.successes && a.key !in w.audit.failures
  {
    Reachable(w);
    assert AccountInv(w, w.pc.job.item.ref);
  }

  // At most two Consume calls per key, but for updates that a failed write or a crash swallowed;
  // when the thread is idle the stored count covers them.
  lemma RetryBound(w: World, k: string)
    requires Reached(w)
    ensures Count(w.audit.calls, k) <= MAXIMUM_VERIFICATION_TRIES + Count(w.audit.lost, k)
            && forall r :: Holds(GuardOf(w.disk, r), k) && w.pc.Idle? ==>
                 Count(w.audit.calls, k) <= GuardOf(w.disk, r).pending.value.verificationCount + Count(w.audit.lost, k)
  {
    Reachable(w);
    assert CallInv(w, k);
    forall r | Holds(GuardOf(w.disk, r), k) && w.pc.Idle?
      ensures Count(w.audit.calls, k) <= GuardOf(w.disk, r).pending.value.verificationCount + Count(w.audit.lost, k)
    {
      assert AccountInv(w, r);
    }
  }

  // Every committed success stays owed on disk, with its auth index and creation time, until the
  // local clear for it was answered; a pending attempt and an owed clear never stand together,
  // so whatever an account owes is discharged before its next attempt is on disk.
  lemma LocalClearOutbox(w: World, k: string)
    requires Reached(w) && k in w.audit.successes
    ensures var s := w.audit.successes[k];
            && (Discharged(w, s) || Owed(w, s))
            && (GuardOf(w.disk, s.ref).pending.Some? ==> GuardOf(w.disk, s.ref).localClear.None? && Discharged(w, s))
  {
    Reachable(w);
    assert SuccessInv(w, k) && AccountInv(w, w.audit.successes[k].ref);
  }

  // The log on disk is the newest part of everything ever committed to it.
  lemma LogRefinement(w: World)
    requires Reached(w)
    ensures w.disk.logs == Newest(w.audit.history, MAX_LOGS)
  {
    Reachable(w);
  }

  // ------------------------------------------------- how attempts begin and end

  // After the step the account has a pending attempt it did not have before.
  predicate Starts(w: World, v: World, r: string) {
    var g, h := GuardOf(w.disk, r), GuardOf(v.disk, r);
    h.pending.Some? && (g.pending.Some? ==> g.pending.value.key != h.pending.value.key)
  }

  predicate Closed(w: World, k: string) {
    k in w.audit.successes || k in w.audit.failures
  }

  // A guard changes only when the thread stores something about its account, for a reason.
  lemma GuardStep(w: World, a: Action, r: string)
    requires Inv(w) && Enabled(w, a)
    ensures var v := Next(w, a);
            GuardOf(v.disk, r) == GuardOf(w.disk, r)
            || (a.Thread? && a.op.Update? && w.pc.job.item.ref == r
                && var tx := TxOf(w.pc, w.cfg, a.now, a.op.jitter, a.op.converted);
                   ChangesGuard(tx) && tx.ref == r && Written(w, tx, a.op.outcome) && Justified(w, tx) && Strikes(w, v, tx))
  {
    match a {
      case Edit(tx, outcome) => EditsKeepGuards(tx, w.disk, r);
      case Thread(now, Update(jitter, converted, outcome)) =>
        TxJustified(w, now, jitter, converted);
        StoreKind(w, now, jitter, converted, outcome);
      case _ =>
    }
  }

  // An attempt is put on disk only by the thread's own store of it.
  lemma StartsAtStoreAttempt(w: World, a: Action, r: string)
    requires Inv(w) && Enabled(w, a) && Starts(w, Next(w, a), r)
    ensures w.pc.StoreAttempt? && w.pc.job.item.ref == r && r in w.disk.accounts
    ensures GuardOf(Next(w, a).disk, r).pending == Some(w.pc.attempt)
    ensures w.active && w.disk.accounts[r].profile.participating
    ensures GuardOf(w.disk, r).pending.None?
    ensures GuardOf(w.disk, r).cooldown.Some? ==> GuardOf(w.disk, r).cooldown.value.until <= w.pc.attempt.createdAt
  {
    GuardStep(w, a, r);
  }

  // Where every attempt comes from: the account participates and has no other attempt, its cooldown
  // was over when the attempt was made, and the credit and the usage meet the rule for spending.
  lemma Provenance(w: World, a: Action, r: string)
    requires Reached(w) && Enabled(w, a) && Starts(w, Next(w, a), r)
    ensures var p := GuardOf(Next(w, a).disk, r).pending.value; var g := GuardOf(w.disk, r);
            && r in w.disk.accounts && w.disk.accounts[r].profile.participating && g.pending.None? && g.localClear.None?
            && (g.cooldown.Some? ==> g.cooldown.value.until <= p.createdAt)
            && p.createdAt < p.expiresAt
            && (p.preBlocked
                || (p.expiresAt - p.createdAt <= 6 * HOUR
                    && (p.preUsedPercent >= w.cfg.resetThreshold
                        || (p.expiresAt - p.createdAt <= 30 * MINUTE && p.preUsedPercent > 0.0))))
  {
    Reachable(w);
    StartsAtStoreAttempt(w, a, r);
  }

  // No attempt begins under the fingerprint of the failure that is still on record, and none with a
  // credit that has a tombstone.
  lemma Suppression(w: World, a: Action, r: string)
    requires Reached(w) && Enabled(w, a) && Starts(w, Next(w, a), r)
    ensures var p := GuardOf(Next(w, a).disk, r).pending.value; var g := GuardOf(w.disk, r);
            && (g.backoff.Some? ==> g.backoff.value.fingerprint != p.fingerprint && g.backoff.value.until <= p.createdAt)
            && !Tombstoned(p.creditId, g.tombstones)
  {
    Reachable(w);
    StartsAtStoreAttempt(w, a, r);
  }

  // A transient failure stores an empty fingerprint: whatever was suppressed before no longer is.
  lemma DeferralEndsSuppression(g: Guard, tx: Tx, r: string, credit: string, usage: Usage, count: int)
    requires tx.Defer?
    ensures NewFingerprint(GuardEffect(tx, g), Fingerprint.Of(r, credit, usage, count))
  {
    assert |Fingerprint.Of(r, credit, usage, count)| > 0;
  }

  // What a justified transaction does to the attempt of its own account.
  lemma WrittenAttempt(w: World, v: World, tx: Tx, g: Guard)
    requires ChangesGuard(tx) && g.pending.Some? && Justified(w, tx) && Strikes(w, v, tx)
    requires g == GuardOf(w.disk, tx.ref)
    ensures var p := g.pending.value; var h := GuardEffect(tx, g);
            || (Holds(h, p.key) && h.pending.value.creditId == p.creditId
                && p.verificationCount <= h.pending.value.verificationCount)
            || (h.pending.None? && Closed(v, p.key))
  {
  }

  // An attempt leaves the disk only by being closed, as a success or as a failure.
  lemma AttemptStep(w: World, a: Action, r: string)
    requires Inv(w) && Enabled(w, a) && GuardOf(w.disk, r).pending.Some?
    ensures var p := GuardOf(w.disk, r).pending.value; var v := Next(w, a);
            || (Holds(GuardOf(v.disk, r), p.key) && GuardOf(v.disk, r).pending.value.creditId == p.creditId
                && p.verificationCount <= GuardOf(v.disk, r).pending.value.verificationCount)
            || (GuardOf(v.disk, r).pending.None? && Closed(v, p.key))
  {
    GuardStep(w, a, r);
    assert AccountInv(w, r);
    if a.Thread? && a.op.Update? && GuardOf(Next(w, a).disk, r) != GuardOf(w.disk, r) {
      WrittenAttempt(w, Next(w, a), TxOf(w.pc, w.cfg, a.now, a.op.jitter, a.op.converted), GuardOf(w.disk, r));
    }
  }
}
