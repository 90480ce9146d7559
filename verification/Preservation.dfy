/** Every step keeps the invariant. Steps fall into four kinds: those that keep every guard
    and every redemption, a Consume call, and a transaction written to one account's guard. */
module Preservation {
  import opened Basics
  import opened Records
  import opened Codex
  import opened Discovery
  import opened Transactions
  import opened Protocol
  import opened Invariant

  // ------------------------------------------------- steps that keep guards

  ghost predicate KeepsIssued(w: World, v: World) {
    forall k | k in w.audit.issued :: k in v.audit.issued && v.audit.issued[k] == w.audit.issued[k]
  }

  ghost predicate KeepsGuards(w: World, v: World) {
    && v.disk.management == w.disk.management
    && (forall r :: GuardOf(v.disk, r) == GuardOf(w.disk, r))
    && (forall r :: r in w.disk.accounts ==> r in v.disk.accounts)
  }

  // A lost update is charged to the key whose Consume result it carried.
  ghost predicate Charges(w: World, v: World) {
    && (forall k :: Count(w.audit.lost, k) <= Count(v.audit.lost, k))
    && (Unsaved(w.pc).Some? && Unsaved(v.pc) != Unsaved(w.pc) ==>
          Count(w.audit.lost, Unsaved(w.pc).value) < Count(v.audit.lost, Unsaved(w.pc).value))
  }

  ghost predicate Keeps(w: World, v: World) {
    && v.cfg == w.cfg && w.since <= v.since <= v.clock
    && KeepsGuards(w, v) && KeepsIssued(w, v) && Charges(w, v) && LogInv(v)
    && v.server.byKey == w.server.byKey && w.server.redeemed <= v.server.redeemed
    && v.audit.calls == w.audit.calls && v.audit.successes == w.audit.successes
    && v.audit.failures == w.audit.failures && v.audit.quiet == w.audit.quiet
    && v.audit.authQuiet == w.audit.authQuiet && w.audit.cleared <= v.audit.cleared
  }

  lemma KeepsAccounts(w: World, v: World, r: string)
    requires Inv(w) && Keeps(w, v)
    ensures AccountInv(v, r) && QuietInv(v, r)
  {
    assert AccountInv(w, r) && QuietInv(w, r);
  }

  lemma KeepsKeys(w: World, v: World, k: string)
    requires Inv(w) && Keeps(w, v)
    ensures RedemptionInv(v, k) && SuccessInv(v, k) && FailureInv(v, k)
  {
    assert RedemptionInv(w, k) && SuccessInv(w, k) && FailureInv(w, k);
  }

  lemma KeepsCalls(w: World, v: World, k: string)
    requires Inv(w) && Keeps(w, v)
    ensures CallInv(v, k)
  {
    assert CallInv(w, k);
    if k in v.audit.issued && Holds(GuardOf(v.disk, v.audit.issued[k].ref), k) {
      var r := v.audit.issued[k].ref;
      assert AccountInv(w, r);
    }
  }

  lemma KeepsInv(w: World, v: World)
    requires Inv(w) && Keeps(w, v) && ThreadInv(v) && JobQuiet(v)
    ensures Inv(v)
  {
    forall r
      ensures AccountInv(v, r) && QuietInv(v, r)
    {
      KeepsAccounts(w, v, r);
    }
    forall k
      ensures RedemptionInv(v, k) && SuccessInv(v, k) && FailureInv(v, k) && CallInv(v, k)
    {
      KeepsKeys(w, v, k);
      KeepsCalls(w, v, k);
    }
    forall j, k
      ensures Apart(v, j, k)
    {
      assert Apart(w, j, k);
    }
  }

  // The thread's knowledge survives steps of others.
  lemma KeepsKnowledge(w: World, v: World)
    requires ThreadInv(w) && Keeps(w, v) && v.pc == w.pc
    ensures ThreadInv(v)
  {
  }

  lemma KeepsThread(w: World, v: World)
    requires Inv(w) && Keeps(w, v) && v.pc == w.pc
    ensures ThreadInv(v) && JobQuiet(v)
  {
    KeepsKnowledge(w, v);
  }

  // ------------------------------------------------- steps of the environment

  lemma LogStep(w: World, tx: Tx)
    requires LogInv(w)
    ensures Apply(tx, w.disk).logs == Newest(Record(w.audit, tx, w.disk).history, MAX_LOGS)
  {
    var entry := Entry(tx, w.disk);
    if entry.Some? {
      AppendKeepsNewest(w.audit.history, entry.value);
    }
  }

  // A transaction that belongs to no account keeps guards and redemptions.
  lemma EditKeeps(w: World, tx: Tx, outcome: Outcome)
    requires Inv(w) && IsEdit(tx)
    ensures Keeps(w, Write(w, tx, outcome))
  {
    LogStep(w, tx);
    var v := Write(w, tx, outcome);
    forall r
      ensures GuardOf(v.disk, r) == GuardOf(w.disk, r) && (r in w.disk.accounts ==> r in v.disk.accounts)
    {
      EditsKeepGuards(tx, w.disk, r);
    }
    assert v.disk.management == w.disk.management;
  }

  lemma RestartKeeps(w: World)
    requires Inv(w)
    ensures Keeps(w, Next(w, Restart))
  {
  }

  lemma EnvironmentStep(w: World, a: Action)
    requires Inv(w) && Enabled(w, a) && !a.Thread?
    ensures Inv(Next(w, a))
  {
    var v := Next(w, a);
    match a {
      case Tick(_) =>
      case Stop =>
      case Restart => RestartKeeps(w);
      case Foreign(_) =>
      case Edit(tx, outcome) => EditKeeps(w, tx, outcome);
    }
    if !a.Restart? {
      KeepsThread(w, v);
    }
    KeepsInv(w, v);
  }

  // --------------------------------------- steps of the thread that only read

  predicate Reads(op: Op) {
    op.Load? || op.GetUsage? || op.GetCredits? || op.Check? || op.ResetQuota?
  }

  lemma CheckKeeps(w: World, now: Time, op: Op)
    requires Base(w) && Enabled(w, Thread(now, op)) && op.Check?
    ensures Keeps(w, Next(w, Thread(now, op)))
  {
  }

  lemma ReadKeeps(w: World, now: Time, op: Op)
    requires Base(w) && Enabled(w, Thread(now, op)) && Reads(op)
    ensures Keeps(w, Next(w, Thread(now, op)))
  {
    match op {
      case Check(_, _) => CheckKeeps(w, now, op);
      case ResetQuota(_) =>
      case GetCredits(_) =>
      case GetUsage(_) =>
      case Load(_, _, _) =>
    }
  }

  lemma LoadThread(w: World, now: Time, op: Op)
    requires Base(w) && AuthInv(w) && Enabled(w, Thread(now, op)) && op.Load? && QuietInv(w, op.item.ref)
    ensures var v := Next(w, Thread(now, op)); ThreadInv(v) && JobQuiet(v)
  {
  }

  lemma GateThread(w: World, v: World, job: Job, reply: UsageReply)
    requires Fresh(v, job, job.snap.guard) && JobMayPass(v, job) && AccountInv(w, job.item.ref)
    requires GuardOf(w.disk, job.item.ref) == job.snap.guard && v.pc == Gate(job, reply)
    ensures ThreadInv(v) && JobQuiet(v)
  {
  }

  // The thread goes on at `pc` and changes nothing else.
  function Moved(w: World, pc: Pc): World {
    w.(pc := pc, since := w.clock)
  }

  lemma UsageThread(w: World, reply: UsageReply)
    requires Base(w) && ThreadInv(w) && JobQuiet(w) && (w.pc.AskUsage? || w.pc.VerifyUsage? || w.pc.ConfirmUsage?)
    requires w.pc.AskUsage? ==> AccountInv(w, w.pc.job.item.ref)
    ensures var v := Moved(w, AfterUsage(w.pc, reply)); ThreadInv(v) && JobQuiet(v)
  {
    match w.pc {
      case AskUsage(job) =>
        if reply.Err? {
          GateThread(w, Moved(w, Gate(job, reply)), job, reply);
        }
      case VerifyUsage(_, _, _) =>
      case ConfirmUsage(_, _, _, _, _, _) =>
    }
  }

  // A listed credit cannot have been redeemed by the pending key.
  lemma ListedNotRedeemed(w: World, job: Job, attempt: Attempt, list: CreditList, at: Time)
    requires Working(w, job, attempt) && AccountInv(w, job.item.ref) && RedemptionInv(w, attempt.key)
    requires Truthful(w.server, Ok(list), at) && Contains(list.available, attempt.creditId)
    ensures attempt.key !in w.server.byKey
  {
  }

  lemma SearchThread(w: World, now: Time, reply: CreditsReply)
    requires Base(w) && ThreadInv(w) && JobQuiet(w) && (w.pc.AskCredits? || w.pc.Recheck?)
    requires Truthful(w.server, reply, w.pc.job.now)
    ensures var v := Moved(w, AfterCredits(w.pc, now, reply)); ThreadInv(v) && JobQuiet(v)
  {
  }

  lemma VerifyThread(w: World, now: Time, reply: CreditsReply)
    requires Base(w) && ThreadInv(w) && JobQuiet(w) && w.pc.VerifyCredits?
    requires Truthful(w.server, reply, now)
    requires AccountInv(w, w.pc.job.item.ref) && RedemptionInv(w, w.pc.attempt.key)
    ensures var v := Moved(w, AfterCredits(w.pc, now, reply)); ThreadInv(v) && JobQuiet(v)
  {
    if reply.Ok? && Contains(reply.value.available, w.pc.attempt.creditId) {
      ListedNotRedeemed(w, w.pc.job, w.pc.attempt, reply.value, now);
    }
  }

  lemma ConfirmThread(w: World, now: Time, reply: CreditsReply)
    requires Base(w) && ThreadInv(w) && JobQuiet(w) && w.pc.ConfirmCredits?
    requires w.since <= now <= w.clock && RedemptionInv(w, w.pc.attempt.key) && AccountInv(w, w.pc.job.item.ref)
    ensures var v := Moved(w, AfterCredits(w.pc, now, reply)); ThreadInv(v) && JobQuiet(v)
  {
    assert RedeemedBy(w, w.pc.attempt.key, now);
  }

  lemma CheckThread(w: World, now: Time, op: Op)
    requires Base(w) && ThreadInv(w) && JobQuiet(w) && Enabled(w, Thread(now, op)) && op.Check?
    requires op.key.Some? ==> (var k := op.key.value; RedemptionInv(w, k) && SuccessInv(w, k) && FailureInv(w, k) && CallInv(w, k))
    ensures var v := Next(w, Thread(now, op)); ThreadInv(v) && JobQuiet(v)
  {
  }

  lemma ClearThread(w: World, now: Time, op: Op)
    requires Base(w) && ThreadInv(w) && JobQuiet(w) && Enabled(w, Thread(now, op)) && op.ResetQuota?
    ensures var v := Next(w, Thread(now, op)); ThreadInv(v) && JobQuiet(v)
  {
  }

  lemma ReadStep(w: World, now: Time, op: Op)
    requires Inv(w) && Enabled(w, Thread(now, op)) && Reads(op)
    ensures Inv(Next(w, Thread(now, op)))
  {
    ReadKeeps(w, now, op);
    match op {
      case Load(item, _, _) =>
        assert QuietInv(w, item.ref);
        LoadThread(w, now, op);
      case GetUsage(reply) =>
        assert AccountInv(w, w.pc.job.item.ref);
        UsageThread(w, reply);
      case GetCredits(reply) =>
        CreditsThread(w, now, reply);
      case Check(_, key) =>
        if key.Some? {
          assert RedemptionInv(w, key.value) && SuccessInv(w, key.value) && FailureInv(w, key.value) && CallInv(w, key.value);
        }
        CheckThread(w, now, op);
      case ResetQuota(_) =>
        ClearThread(w, now, op);
    }
    KeepsInv(w, Next(w, Thread(now, op)));
  }

  lemma CreditsThread(w: World, now: Time, reply: CreditsReply)
    requires Inv(w) && Enabled(w, Thread(now, GetCredits(reply)))
    ensures var v := Moved(w, AfterCredits(w.pc, now, reply)); ThreadInv(v) && JobQuiet(v)
  {
    if w.pc.AskCredits? || w.pc.Recheck? {
      SearchThread(w, now, reply);
    } else {
      assert AccountInv(w, w.pc.job.item.ref) && RedemptionInv(w, w.pc.attempt.key);
      if w.pc.VerifyCredits? {
        VerifyThread(w, now, reply);
      } else {
        ConfirmThread(w, now, reply);
      }
    }
  }

  // --------------------------------------------------------- a Consume call

  // A redemption by the pending key comes a cooldown after every earlier one of the account.
  lemma RedeemedApart(w: World, job: Job, attempt: Attempt, j: string)
    requires Base(w) && Working(w, job, attempt) && AccountInv(w, job.item.ref)
    requires RedemptionInv(w, j) && SuccessInv(w, j)
    requires j in w.server.byKey && w.server.byKey[j].ref == job.item.ref && j != attempt.key
    ensures w.server.byKey[j].at + w.cfg.postResetCooldown <= w.clock
  {
  }

  lemma ConsumeKeys(w: World, redeems: bool, reply: ConsumeReply, k: string)
    requires Inv(w) && w.pc.Spend? && Honest(w.server, w.pc.attempt.key, redeems, reply)
    ensures var v := ConsumeStep(w, redeems, reply).(since := w.clock);
            RedemptionInv(v, k) && SuccessInv(v, k) && FailureInv(v, k)
  {
    assert RedemptionInv(w, k) && SuccessInv(w, k) && FailureInv(w, k) && AccountInv(w, w.pc.job.item.ref);
  }

  lemma ConsumeCalls(w: World, redeems: bool, reply: ConsumeReply, k: string)
    requires Inv(w) && w.pc.Spend?
    ensures CallInv(ConsumeStep(w, redeems, reply).(since := w.clock), k)
  {
    assert CallInv(w, k) && AccountInv(w, w.pc.job.item.ref);
  }

  lemma ConsumeApart(w: World, redeems: bool, reply: ConsumeReply, j: string, k: string)
    requires Inv(w) && w.pc.Spend?
    ensures Apart(ConsumeStep(w, redeems, reply).(since := w.clock), j, k)
  {
    var job, attempt := w.pc.job, w.pc.attempt;
    assert Apart(w, j, k) && AccountInv(w, job.item.ref);
    assert RedemptionInv(w, j) && SuccessInv(w, j) && RedemptionInv(w, k) && SuccessInv(w, k);
    if j in w.server.byKey && w.server.byKey[j].ref == job.item.ref && j != attempt.key {
      RedeemedApart(w, job, attempt, j);
    }
    if k in w.server.byKey && w.server.byKey[k].ref == job.item.ref && k != attempt.key {
      RedeemedApart(w, job, attempt, k);
    }
  }

  lemma ConsumeAccounts(w: World, redeems: bool, reply: ConsumeReply, r: string)
    requires Inv(w) && w.pc.Spend?
    ensures var v := ConsumeStep(w, redeems, reply).(since := w.clock); AccountInv(v, r) && QuietInv(v, r)
  {
    assert AccountInv(w, r) && QuietInv(w, r);
  }

  lemma ConsumeThread(w: World, redeems: bool, reply: ConsumeReply)
    requires Inv(w) && w.pc.Spend? && Honest(w.server, w.pc.attempt.key, redeems, reply)
    ensures var v := ConsumeStep(w, redeems, reply).(since := w.clock);
            Base(v) && ThreadInv(v) && JobQuiet(v) && AuthInv(v)
  {
  }

  lemma SpendStep(w: World, now: Time, redeems: bool, reply: ConsumeReply)
    requires Inv(w) && Enabled(w, Thread(now, Consume(redeems, reply)))
    ensures Inv(Next(w, Thread(now, Consume(redeems, reply))))
  {
    var v := ConsumeStep(w, redeems, reply).(since := w.clock);
    ConsumeThread(w, redeems, reply);
    forall r
      ensures AccountInv(v, r) && QuietInv(v, r)
    {
      ConsumeAccounts(w, redeems, reply, r);
    }
    forall k
      ensures RedemptionInv(v, k) && SuccessInv(v, k) && FailureInv(v, k) && CallInv(v, k)
    {
      ConsumeKeys(w, redeems, reply, k);
      ConsumeCalls(w, redeems, reply, k);
    }
    forall j, k
      ensures Apart(v, j, k)
    {
      ConsumeApart(w, redeems, reply, j, k);
    }
  }

  // ----------------------------------------- a transaction on one account's guard

  predicate ChangesGuard(tx: Tx) {
    || tx.Persist? || tx.Succeed? || tx.Postpone? || tx.Bump? || tx.Fail? || tx.Defer? || tx.Cleared? || tx.Uncleared?
  }

  // `v` is `w` after `tx` was written.
  ghost predicate Strikes(w: World, v: World, tx: Tx) {
    && ChangesGuard(tx) && tx.ref in w.disk.accounts && tx.ref in v.disk.accounts
    && v.cfg == w.cfg && v.server == w.server && w.since <= v.since
    && (forall r :: GuardOf(v.disk, r) == if r == tx.ref then GuardEffect(tx, GuardOf(w.disk, r)) else GuardOf(w.disk, r))
    && v.disk.management == (if tx.Uncleared? && tx.auth
                             then Some(Cooldown(tx.now + MANAGEMENT_AUTH_COOLDOWN, "management_auth_failed"))
                             else w.disk.management)
    && v.audit.issued == w.audit.issued && v.audit.calls == w.audit.calls && v.audit.cleared == w.audit.cleared
    && v.audit.lost == w.audit.lost && Unsaved(v.pc).None?
    && v.audit.successes == (if tx.Succeed? then w.audit.successes[tx.attempt.key := Success(tx.ref, tx.authIndex, tx.now)]
                             else w.audit.successes)
    && v.audit.failures == (if tx.Fail? && GuardOf(w.disk, tx.ref).pending.Some?
                            then w.audit.failures + {GuardOf(w.disk, tx.ref).pending.value.key} else w.audit.failures)
    && v.audit.quiet == (var until := NewBackoff(tx, GuardOf(w.disk, tx.ref));
                         if until.Some? then w.audit.quiet[tx.ref := Later(QuietEnd(w.audit, tx.ref), until.value)]
                         else w.audit.quiet)
    && v.audit.authQuiet == (if tx.Uncleared? && tx.auth
                             then Some(Later(w.audit.authQuiet, tx.now + MANAGEMENT_AUTH_COOLDOWN)) else w.audit.authQuiet)
  }

  predicate QuietPast(w: World, r: string) {
    r in w.audit.quiet ==> w.audit.quiet[r] <= w.since
  }

  predicate AuthPast(w: World) {
    w.audit.authQuiet.Some? ==> w.audit.authQuiet.value <= w.since
  }

  // What the thread knows when it runs a transaction.
  predicate Justified(w: World, tx: Tx)
    requires ChangesGuard(tx)
  {
    var g := GuardOf(w.disk, tx.ref);
    match tx
    case Persist(ref, _, a, _) =>
      && g.pending.None? && g.localClear.None? && a.createdAt <= w.since && EligibleAttempt(w.cfg, a)
      && (g.cooldown.Some? ==> g.cooldown.value.until <= a.createdAt)
      && a.key in w.audit.issued && w.audit.issued[a.key] == Issue(ref, a.creditId) && Unused(w, a.key)
    case Succeed(_, _, _, a, _, now, until) =>
      && g.pending == Some(a) && until == now + w.cfg.postResetCooldown
      && RedeemedBy(w, a.key, now) && a.createdAt <= now <= w.since && QuietPast(w, tx.ref)
    case Postpone(_, _, a, _, _) => g.pending == Some(a) && QuietPast(w, tx.ref)
    case Bump(_, a, _, _) => g.pending == Some(a) && QuietPast(w, tx.ref)
    case Fail(_, _, _, _, _, _, _, _) =>
      g.pending.Some? && g.pending.value.key !in w.server.byKey && QuietPast(w, tx.ref)
    case Defer(_, _, _, _, _) => QuietPast(w, tx.ref)
    case Cleared(ref, _, _) =>
      g.localClear.Some? && (ref, g.localClear.value.authIndex, g.localClear.value.createdAt) in w.audit.cleared
    case Uncleared(_, _, clear, _, _, _) => g.pending.None? && g.localClear == Some(clear) && AuthPast(w)
  }

  lemma StrikeAccount(w: World, v: World, tx: Tx, r: string)
    requires Strikes(w, v, tx) && Justified(w, tx) && AccountInv(w, r) && AccountInv(w, tx.ref)
    ensures AccountInv(v, r)
  {
  }

  lemma StrikeQuiet(w: World, v: World, tx: Tx, r: string)
    requires Strikes(w, v, tx) && Justified(w, tx) && QuietInv(w, r)
    ensures QuietInv(v, r)
  {
  }

  lemma StrikeAuth(w: World, v: World, tx: Tx)
    requires Strikes(w, v, tx) && Justified(w, tx) && AuthInv(w)
    ensures AuthInv(v)
  {
  }

  lemma StrikeRedemption(w: World, v: World, tx: Tx, k: string)
    requires Strikes(w, v, tx) && Justified(w, tx) && AccountInv(w, tx.ref) && RedemptionInv(w, k) && SuccessInv(w, k)
    ensures RedemptionInv(v, k)
  {
  }

  lemma StrikeSuccess(w: World, v: World, tx: Tx, k: string)
    requires Strikes(w, v, tx) && Justified(w, tx) && ValidConfig(w.cfg) && AccountInv(w, tx.ref) && SuccessInv(w, k)
    ensures SuccessInv(v, k)
  {
  }

  lemma StrikeFailure(w: World, v: World, tx: Tx, k: string)
    requires Strikes(w, v, tx) && Justified(w, tx) && AccountInv(w, tx.ref) && FailureInv(w, k)
    ensures FailureInv(v, k)
  {
  }

  // A Postpone pays for the call it follows with a higher count.
  lemma StrikeCalls(w: World, v: World, tx: Tx, k: string)
    requires Strikes(w, v, tx) && Justified(w, tx) && AccountInv(w, tx.ref) && CallInv(w, k)
    requires forall a :: Unsaved(w.pc) == Some(a) ==>
      (tx.Succeed? || tx.Postpone? || tx.Fail?) && Holds(GuardOf(w.disk, tx.ref), a)
    ensures CallInv(v, k)
  {
  }

  lemma StrikeInv(w: World, v: World, tx: Tx)
    requires Inv(w) && Strikes(w, v, tx) && Justified(w, tx) && Base(v) && ThreadInv(v) && JobQuiet(v)
    requires forall a :: Unsaved(w.pc) == Some(a) ==>
      (tx.Succeed? || tx.Postpone? || tx.Fail?) && Holds(GuardOf(w.disk, tx.ref), a)
    ensures Inv(v)
  {
    assert AccountInv(w, tx.ref);
    StrikeAuth(w, v, tx);
    forall r
      ensures AccountInv(v, r) && QuietInv(v, r)
    {
      assert AccountInv(w, r) && QuietInv(w, r);
      StrikeAccount(w, v, tx, r);
      StrikeQuiet(w, v, tx, r);
    }
    forall k
      ensures RedemptionInv(v, k) && SuccessInv(v, k) && FailureInv(v, k) && CallInv(v, k)
    {
      assert RedemptionInv(w, k) && SuccessInv(w, k) && FailureInv(w, k) && CallInv(w, k);
      StrikeRedemption(w, v, tx, k);
      StrikeSuccess(w, v, tx, k);
      StrikeFailure(w, v, tx, k);
      StrikeCalls(w, v, tx, k);
    }
    forall j, k
      ensures Apart(v, j, k)
    {
      assert Apart(w, j, k);
    }
  }

  // ------------------------------------------------------------ store steps

  // The world after a store step of the thread.
  function Stored(w: World, tx: Tx, outcome: Outcome): World
    requires AtStore(w.pc)
  {
    StoreStep(w, tx, outcome).(since := w.clock)
  }

  // A write that fails or is refused changes nothing but the audit of lost updates.
  lemma UnwrittenKeeps(w: World, tx: Tx, outcome: Outcome)
    requires Base(w) && AtStore(w.pc) && !Written(w, tx, outcome)
    ensures Keeps(w, Stored(w, tx, outcome))
  {
  }

  // Usage and credit snapshots and plain log entries keep every guard.
  lemma SnapshotKeeps(w: World, tx: Tx, outcome: Outcome)
    requires Base(w) && AtStore(w.pc) && Written(w, tx, outcome) && Unsaved(w.pc).None?
    requires tx.SaveUsage? || tx.SaveCredits? || tx.Note?
    ensures Keeps(w, Stored(w, tx, outcome))
  {
    LogStep(w, tx);
    var v := Stored(w, tx, outcome);
    forall r
      ensures GuardOf(v.disk, r) == GuardOf(w.disk, r) && (r in w.disk.accounts ==> r in v.disk.accounts)
    {
      GuardAfter(tx, w.disk, r);
    }
  }

  lemma WrittenStrikes(w: World, tx: Tx, outcome: Outcome)
    requires Base(w) && AtStore(w.pc) && Written(w, tx, outcome) && ChangesGuard(tx) && tx.ref in w.disk.accounts
    requires Unsaved(AfterStore(w.pc, w.cfg, outcome == Committed)).None?
    ensures Strikes(w, Stored(w, tx, outcome), tx) && Base(Stored(w, tx, outcome))
  {
    LogStep(w, tx);
    var v := Stored(w, tx, outcome);
    forall r
      ensures GuardOf(v.disk, r) == if r == tx.ref then GuardEffect(tx, GuardOf(w.disk, r)) else GuardOf(w.disk, r)
    {
      GuardAfter(tx, w.disk, r);
    }
    GuardAfter(tx, w.disk, tx.ref);
  }

  lemma TxJustified(w: World, now: Time, jitter: Time, converted: Time)
    requires Inv(w) && AtStore(w.pc)
    ensures var tx := TxOf(w.pc, w.cfg, now, jitter, converted);
            && (ChangesGuard(tx) ==> tx.ref in w.disk.accounts && Justified(w, tx))
            && (ChangesGuard(tx) || tx.SaveUsage? || tx.SaveCredits? || tx.Note?)
            && (Unsaved(w.pc).Some? ==> (tx.Succeed? || tx.Postpone? || tx.Fail?)
                                        && Holds(GuardOf(w.disk, tx.ref), Unsaved(w.pc).value))
  {
    assert !w.pc.LeaveNote? ==> QuietInv(w, w.pc.job.item.ref);
  }

  lemma StoreUsageThread(w: World, v: World)
    requires w.pc.StoreUsage? && Base(w) && ThreadInv(w) && JobQuiet(w) && AccountInv(w, w.pc.job.item.ref)
    requires Keeps(w, v) && v.pc == Gate(w.pc.job, Ok(w.pc.usage))
    ensures ThreadInv(v) && JobQuiet(v)
  {
    GateThread(w, v, w.pc.job, Ok(w.pc.usage));
  }

  lemma StoreCreditsThread(w: World, v: World, ok: bool)
    requires w.pc.StoreCredits? || w.pc.NoteCredit?
    requires ThreadInv(w) && JobQuiet(w)
    requires Keeps(w, v) && v.pc == AfterStore(w.pc, w.cfg, ok)
    ensures ThreadInv(v) && JobQuiet(v)
  {
  }

  lemma StoreAttemptThread(w: World, v: World, tx: Tx)
    requires w.pc.StoreAttempt? && ThreadInv(w) && JobQuiet(w)
    requires tx == Persist(w.pc.job.item.ref, w.pc.job.trigger, w.pc.attempt, w.pc.job.now)
    requires Strikes(w, v, tx) && v.pc == Spend(w.pc.job, w.pc.attempt)
    ensures ThreadInv(v) && JobQuiet(v)
  {
  }

  lemma StoreSuccessThread(w: World, v: World, tx: Tx, until: Time)
    requires w.pc.StoreSuccess? && ThreadInv(w) && JobQuiet(w)
    requires var j := w.pc.job;
      && tx == Succeed(j.item.ref, j.trigger, j.item.authIndex, w.pc.attempt, w.pc.outcome, w.pc.now, until)
      && Strikes(w, v, tx) && v.pc == ClearQuota(j, LocalClear(j.item.authIndex, w.pc.now, w.pc.now, 0))
    ensures ThreadInv(v) && JobQuiet(v)
  {
  }

  lemma StoreKind(w: World, now: Time, jitter: Time, converted: Time, outcome: Outcome)
    requires Inv(w) && AtStore(w.pc)
    ensures var tx := TxOf(w.pc, w.cfg, now, jitter, converted); var v := Stored(w, tx, outcome);
            Base(v) && (Keeps(w, v) || Strikes(w, v, tx))
    ensures var tx := TxOf(w.pc, w.cfg, now, jitter, converted);
            Written(w, tx, outcome) && ChangesGuard(tx) ==> Strikes(w, Stored(w, tx, outcome), tx)
    ensures var tx := TxOf(w.pc, w.cfg, now, jitter, converted);
            !(Written(w, tx, outcome) && ChangesGuard(tx)) ==> Keeps(w, Stored(w, tx, outcome))
  {
    var tx := TxOf(w.pc, w.cfg, now, jitter, converted);
    TxJustified(w, now, jitter, converted);
    if !Written(w, tx, outcome) {
      UnwrittenKeeps(w, tx, outcome);
    } else if ChangesGuard(tx) {
      StoreEndsCall(w, outcome == Committed);
      WrittenStrikes(w, tx, outcome);
    } else {
      assert Unsaved(w.pc).None?;
      SnapshotKeeps(w, tx, outcome);
    }
  }

  lemma StoreEndsCall(w: World, ok: bool)
    requires AtStore(w.pc)
    ensures Unsaved(AfterStore(w.pc, w.cfg, ok)).None?
  {
  }

  // The transactions after whose success the thread goes on.
  predicate ContinuesWith(pc: Pc, tx: Tx) {
    match pc
    case StoreAttempt(job, attempt) => tx == Persist(job.item.ref, job.trigger, attempt, job.now)
    case StoreSuccess(job, attempt, outcome, _, now) =>
      tx.Succeed? && tx == Succeed(job.item.ref, job.trigger, job.item.authIndex, attempt, outcome, now, tx.until)
    case _ => true
  }

  lemma AttemptCases(w: World, v: World, tx: Tx, ok: bool)
    requires (w.pc.StoreAttempt? || w.pc.StoreSuccess?) && ThreadInv(w) && JobQuiet(w)
    requires v.pc == AfterStore(w.pc, w.cfg, ok) && ContinuesWith(w.pc, tx) && (ok ==> Strikes(w, v, tx))
    ensures ThreadInv(v) && JobQuiet(v)
  {
    if ok && w.pc.StoreAttempt? {
      StoreAttemptThread(w, v, tx);
    } else if ok {
      StoreSuccessThread(w, v, tx, tx.until);
    }
  }

  lemma StoreCases(w: World, v: World, tx: Tx, ok: bool)
    requires AtStore(w.pc) && Base(w) && ThreadInv(w) && JobQuiet(w) && AccountInv(w, w.pc.job.item.ref)
    requires v.pc == AfterStore(w.pc, w.cfg, ok) && ContinuesWith(w.pc, tx)
    requires w.pc.StoreUsage? || w.pc.StoreCredits? || w.pc.NoteCredit? ==> Keeps(w, v)
    requires ok && (w.pc.StoreAttempt? || w.pc.StoreSuccess?) ==> Strikes(w, v, tx)
    ensures ThreadInv(v) && JobQuiet(v)
  {
    if w.pc.StoreUsage? {
      StoreUsageThread(w, v);
    } else if w.pc.StoreCredits? || w.pc.NoteCredit? {
      StoreCreditsThread(w, v, ok);
    } else if w.pc.StoreAttempt? || w.pc.StoreSuccess? {
      AttemptCases(w, v, tx, ok);
    } else {
      assert v.pc.Idle?;
    }
  }

  lemma StoreThread(w: World, now: Time, jitter: Time, converted: Time, outcome: Outcome)
    requires Inv(w) && AtStore(w.pc)
    ensures var v := Stored(w, TxOf(w.pc, w.cfg, now, jitter, converted), outcome); ThreadInv(v) && JobQuiet(v)
  {
    var tx := TxOf(w.pc, w.cfg, now, jitter, converted);
    StoreKind(w, now, jitter, converted, outcome);
    assert AccountInv(w, w.pc.job.item.ref);
    StoreCases(w, Stored(w, tx, outcome), tx, Written(w, tx, outcome) && outcome == Committed);
  }

  lemma UpdateStep(w: World, now: Time, jitter: Time, converted: Time, outcome: Outcome)
    requires Inv(w) && Enabled(w, Thread(now, Update(jitter, converted, outcome)))
    ensures Inv(Next(w, Thread(now, Update(jitter, converted, outcome))))
  {
    var tx := TxOf(w.pc, w.cfg, now, jitter, converted);
    var v := Stored(w, tx, outcome);
    TxJustified(w, now, jitter, converted);
    StoreKind(w, now, jitter, converted, outcome);
    StoreThread(w, now, jitter, converted, outcome);
    if Written(w, tx, outcome) && ChangesGuard(tx) {
      StrikeInv(w, v, tx);
    } else {
      KeepsInv(w, v);
    }
  }

  // -------------------------------------------------------------- all steps

  lemma StepInv(w: World, a: Action)
    requires Inv(w) && Enabled(w, a)
    ensures Inv(Next(w, a))
  {
    if a.Thread? {
      match a.op {
        case Update(jitter, converted, outcome) => UpdateStep(w, a.now, jitter, converted, outcome);
        case Consume(redeems, reply) => SpendStep(w, a.now, redeems, reply);
        case _ => ReadStep(w, a.now, a.op);
      }
    } else {
      EnvironmentStep(w, a);
    }
  }

  // Every reachable state satisfies the invariant.
  lemma {:induction false} RunInv(start: World, run: seq<Action>)
    requires Inv(start) && Legal(start, run)
    ensures Inv(Exec(start, run))
  {
    if run != [] {
      RunInv(start, run[..|run| - 1]);
      StepInv(Exec(start, run[..|run| - 1]), run[|run| - 1]);
    }
  }
}
