/** The engine's methods in the form they have in `internal/reset/engine.go`.

    Each call to the store, the service or the local clear is one step of the protocol machine.
    The methods decide with their own local variables; that the machine is at the matching
    place, with the matching values, is what their contracts establish. Every execution is
    therefore a run of the machine, and so is every execution cut short by a crash. */
module Engine {
  import opened Basics
  import opened Records
  import opened Codex
  import opened Discovery
  import opened Transactions
  import opened Protocol
  import opened Invariant
  import opened Theorems
  import Backoff
  import Fingerprint
  import Text
  import Witnesses
  import Rules

  // What the surroundings contribute at one moment: steps of others, and the answer to the next call.
  datatype Choice = Choice(
    others: seq<Action>,
    loads: bool,
    usage: UsageReply,
    credits: CreditsReply,
    redeems: bool,
    consume: ConsumeReply,
    clearing: ClearReply,
    cancelled: bool,
    key: Option<string>,
    jitter: Time,
    converted: Time,
    outcome: Outcome)

  // Steps of others that may fall between two steps of the thread.
  predicate Interleaves(a: Action) {
    a.Tick? || a.Stop? || a.Foreign? || a.Edit?
  }

  // Such steps spare the thread and what it has recorded.
  predicate Spares(w: World, v: World) {
    && v.pc == w.pc && v.cfg == w.cfg && v.since == w.since && w.clock <= v.clock
    && v.audit.successes == w.audit.successes && v.audit.issued == w.audit.issued && (v.active ==> w.active)
  }

  // The successes committed by a call that reports `done`; a write reported as failed may have happened.
  predicate Counted(before: int, after: int, done: bool, unclear: int) {
    var counted := before + (if done then 1 else 0);
    0 <= unclear && counted <= after <= counted + unclear
  }

  // What `processAccount` reports about one visit.
  datatype Verdict = Verdict(eligible: bool, resetDone: bool, failed: bool)

  // The report of a visit whose last step left the place `pc`; `keyless` if no key could be made there.
  function Reported(pc: Pc, keyless: bool): Verdict
    requires !pc.Idle?
  {
    match pc
    case AskUsage(job) => Verdict(!Paused(job) && job.snap.guard.pending.Some?, false, false)
    case StoreUsage(job, _) => Verdict(!Paused(job) && job.snap.guard.pending.Some?, false, false)
    case LeaveNote(_, _) => Verdict(false, false, false)
    case StoreCredits(_, _, _) => Verdict(false, false, false)
    case NoteCredit(_, _, _) => Verdict(false, false, false)
    case StoreDeferral(_, code, _) => Verdict(code == "credit_recheck_failed", false, true)
    case Decide(_, _, _, _) => Verdict(true, false, keyless)
    case StoreAttempt(_, _) => Verdict(true, false, true)
    case StoreAmbiguous(job, _, _) => Verdict(true, false, job.snap.guard.pending.None?)
    case ClearQuota(job, _) => AfterClearing(job)
    case StoreCleared(job, _, _) => AfterClearing(job)
    case StoreUncleared(job, _, _, _) => AfterClearing(job)
    case _ => Verdict(true, false, false)
  }

  // A reset is reported by a visit that went on to the local clear of its own success. An error is reported when the
  // record cannot be loaded, a reading before the attempt fails, no key can be made, the attempt is not written, or
  // the first call for it fails. The account counts as eligible from its second look at the credits on, and
  // whenever an attempt is pending behind the gates of cooldown and debt.
  lemma ReportedIff(pc: Pc, keyless: bool)
    requires !pc.Idle?
    ensures var v, g := Reported(pc, keyless), pc.job.snap.guard;
            && (v.resetDone <==> (pc.ClearQuota? || pc.StoreCleared? || pc.StoreUncleared?) && g.localClear.None?)
            && (v.failed <==> pc.StoreDeferral? || pc.StoreAttempt? || (pc.Decide? && keyless)
                              || (pc.StoreAmbiguous? && g.pending.None?))
            && (pc.LeaveNote? || pc.StoreCredits? || pc.NoteCredit? ==> !v.eligible)
            && (pc.Recheck? || pc.Decide? || pc.StoreAttempt? || pc.Spend? ==> v.eligible)
            && (pc.VerifyCredits? || pc.VerifyUsage? || pc.MayRetry? || pc.StoreSuccess? ==> v.eligible)
            && (pc.StoreFailure? || pc.StoreAmbiguous? || pc.StoreBump? ==> v.eligible)
            && (pc.StoreDeferral? ==> (v.eligible <==> pc.code == "credit_recheck_failed"))
            && (pc.AskUsage? || pc.StoreUsage? ==>
                  (v.eligible <==> g.pending.Some? && (pc.job.management.Some? ==> pc.job.management.value.until <= pc.job.now)))
  {
  }

  predicate Paused(job: Job) {
    job.management.Some? && Running(job.management.value.until, job.now)
  }

  // A visit that ends with a local clear either came for that alone or has just reset the account.
  function AfterClearing(job: Job): Verdict {
    Verdict(job.snap.guard.localClear.None?, job.snap.guard.localClear.None?, false)
  }

  // The accounts whose visits have ended, in order, and how many of them reported what.
  datatype Totals = Totals(refs: seq<string>, eligible: int, resets: int, errors: int)

  const NO_VISITS := Totals([], 0, 0, 0)

  function Plus(t: Totals, ref: string, v: Verdict): Totals {
    Totals(t.refs + [ref], t.eligible + (if v.eligible then 1 else 0), t.resets + (if v.resetDone then 1 else 0),
           t.errors + (if v.failed then 1 else 0))
  }

  function Leaving(t: Totals, pc: Pc, next: Pc, keyless: bool): Totals
    requires !pc.Idle?
  {
    if next.Idle? then Plus(t, pc.job.item.ref, Reported(pc, keyless)) else t
  }

  // A visit whose record cannot be loaded is over at once.
  function Loading(t: Totals, item: Account, next: Pc): Totals {
    if next.Idle? then Plus(t, item.ref, Verdict(false, false, true)) else t
  }

  function Ending(t: Totals, w: World, a: Action): Totals
    requires Enabled(w, a)
  {
    if !a.Thread? then t
    else if w.pc.Idle? then Loading(t, a.op.item, Next(w, a).pc)
    else Leaving(t, w.pc, Next(w, a).pc, a.op.Check? && a.op.go)
  }

  // The totals of a run.
  function Visits(start: World, run: seq<Action>): Totals
    requires Legal(start, run)
  {
    if run == [] then NO_VISITS
    else Ending(Visits(start, run[..|run| - 1]), Exec(start, run[..|run| - 1]), run[|run| - 1])
  }

  // A store of the thread that ends as written and yet failed, if its closure does not refuse.
  predicate HalfFailed(a: Action) {
    a.Thread? && a.op.Update? && a.op.outcome == CommittedError
  }

  function Unclear(run: seq<Action>): nat {
    if run == [] then 0 else Unclear(run[..|run| - 1]) + (if HalfFailed(run[|run| - 1]) then 1 else 0)
  }

  function Refs(accounts: seq<Account>): seq<string> {
    seq(|accounts|, i requires 0 <= i < |accounts| => accounts[i].ref)
  }

  // The summary `begun` with what the visits between two totals reported.
  function Summed(begun: ScanSummary, before: Totals, after: Totals): ScanSummary {
    begun.(eligible := begun.eligible + after.eligible - before.eligible,
           reset := begun.reset + after.resets - before.resets,
           errors := begun.errors + after.errors - before.errors)
  }

  // The auth files the host lists, and what it returns for each.
  datatype Host = Host(entries: seq<AuthEntry>, auths: map<string, AuthFile>)

  lemma EmptyDiscovery(found: seq<Account>, all: seq<Account>)
    requires Canonical(found, all)
    ensures found == [] <==> all == []
  {
    if found != [] {
      assert found[0] in found && Best(found[0], all);
    }
    if all != [] {
      assert all[0] in all;
    }
  }

  class Engine {
    var w: World
    // Any behaviour of the surroundings that the protocol's assumptions allow is some script.
    const script: nat -> Choice
    const configured: bool
    var tick: nat
    ghost var start: World
    ghost var trace: seq<Action>
    // What the visits that have ended so far reported.
    ghost var visits: Totals
    // Stores reported as failed although the state may have been written.
    ghost var unclear: nat

    ghost predicate Valid()
      reads this
    {
      && Initial(start) && Legal(start, trace) && Exec(start, trace) == w
      && visits == Visits(start, trace) && unclear == Unclear(trace)
    }

    constructor (cfg: Config, now: Time, redeemed: set<string>, script: nat -> Choice, configured: bool)
      requires ValidConfig(cfg)
      ensures Valid() && w.pc.Idle? && w.active && trace == [] && visits == NO_VISITS && unclear == 0
    {
      w := World(cfg, now, now, true, NEW_STATE, Server(redeemed, map[]), Idle,
                 Audit(map[], map[], map[], map[], {}, {}, map[], None, []));
      this.script := script;
      this.configured := configured;
      tick := 0;
      start := w;
      trace := [];
      visits := NO_VISITS;
      unclear := 0;
    }

    // ------------------------------------------------------- machine steps

    method Perform(a: Action)
      requires Valid() && Enabled(w, a)
      modifies `w, `trace, `visits, `unclear
      ensures Valid() && w == Next(old(w), a) && trace == old(trace) + [a]
      ensures visits == Ending(old(visits), old(w), a) && unclear == old(unclear) + (if HalfFailed(a) then 1 else 0)
    {
      Witnesses.Extend(start, trace, a);
      assert (trace + [a])[..|trace|] == trace;
      visits := Ending(visits, w, a);
      unclear := unclear + (if HalfFailed(a) then 1 else 0);
      w := Next(w, a);
      trace := trace + [a];
    }

    // Lets the surroundings act, then yields what they answer next.
    method Await() returns (c: Choice)
      requires Valid()
      modifies `w, `trace, `visits, `tick, `unclear
      ensures Valid() && Spares(old(w), w) && old(trace) <= trace && visits == old(visits)
      ensures c == script(old(tick)) && tick == old(tick) + 1
      ensures unclear == old(unclear)
    {
      c := script(tick);
      tick := tick + 1;
      for i := 0 to |c.others|
        invariant Valid() && Spares(old(w), w) && old(trace) <= trace && visits == old(visits) && unclear == old(unclear)
        invariant tick == old(tick) + 1
      {
        var a := c.others[i];
        if Interleaves(a) && Enabled(w, a) {
          Perform(a);
        }
      }
    }

    method Clock() returns (now: Time)
      requires Valid()
      modifies `w, `trace, `visits, `tick, `unclear
      ensures Valid() && Spares(old(w), w) && old(trace) <= trace && visits == old(visits)
      ensures w.since <= now <= w.clock
      ensures unclear == old(unclear) && tick == old(tick) + 1
    {
      var _ := Await();
      now := w.clock;
      ClockAhead(start, trace);
    }

    // `Store.Load` at the head of a visit.
    method LoadState(item: Account, trigger: string, now: Time) returns (r: Result<State, string>)
      requires Valid() && w.pc.Idle? && w.since <= now <= w.clock
      modifies `w, `trace, `visits, `tick, `unclear
      ensures Valid() && old(trace) <= trace && w.audit.successes == old(w.audit.successes) && w.cfg == old(w.cfg)
      ensures r.Err? || item.ref !in r.value.accounts ==> w.pc.Idle?
      ensures r.Ok? && item.ref in r.value.accounts ==>
                w.pc == AskUsage(Job(item, trigger, now, r.value.accounts[item.ref], r.value.management))
      ensures visits == Loading(old(visits), item, w.pc)
      ensures unclear == old(unclear)
    {
      var c := Await();
      r := if c.loads then Ok(w.disk) else Err("read persistent state");
      Perform(Thread(now, Load(item, trigger, c.loads)));
    }

    method Usage() returns (reply: UsageReply)
      requires Valid() && (w.pc.AskUsage? || w.pc.VerifyUsage? || w.pc.ConfirmUsage?)
      modifies `w, `trace, `visits, `tick, `unclear
      ensures Valid() && old(trace) <= trace && w.audit.successes == old(w.audit.successes) && w.cfg == old(w.cfg)
      ensures w.pc == AfterUsage(old(w.pc), reply)
      ensures visits == Leaving(old(visits), old(w.pc), w.pc, false)
      ensures unclear == old(unclear)
    {
      var now := Clock();
      var c := Await();
      reply := if c.usage.Ok? && !ValidWindows(c.usage.value) then Err(Failure(None)) else c.usage;
      Perform(Thread(now, GetUsage(reply)));
    }

    // `at` is the instant against which the caller wants expiry judged.
    method Credits(at: Time) returns (reply: CreditsReply)
      requires Valid()
      requires w.pc.AskCredits? || w.pc.Recheck? ==> at == w.pc.job.now
      requires w.pc.VerifyCredits? || w.pc.ConfirmCredits? ==> w.since <= at <= w.clock
      requires w.pc.AskCredits? || w.pc.Recheck? || w.pc.VerifyCredits? || w.pc.ConfirmCredits?
      modifies `w, `trace, `visits, `tick, `unclear
      ensures Valid() && old(trace) <= trace && w.audit.successes == old(w.audit.successes) && w.cfg == old(w.cfg)
      ensures w.pc == AfterCredits(old(w.pc), at, reply)
      ensures visits == Leaving(old(visits), old(w.pc), w.pc, false)
      ensures unclear == old(unclear)
    {
      var c := Await();
      ClockAhead(start, trace);
      reply := if Truthful(w.server, c.credits, at) then c.credits else Err(Failure(None));
      var now := if w.pc.AskCredits? || w.pc.Recheck? then w.clock else at;
      Perform(Thread(now, GetCredits(reply)));
    }

    method Consume(creditId: string, key: string) returns (reply: ConsumeReply)
      requires Valid() && w.pc.Spend? && w.pc.attempt.creditId == creditId && w.pc.attempt.key == key
      modifies `w, `trace, `visits, `tick, `unclear
      ensures Valid() && old(trace) <= trace && w.audit.successes == old(w.audit.successes) && w.cfg == old(w.cfg)
      ensures w.pc == AfterConsume(old(w.pc), reply)
      ensures visits == Leaving(old(visits), old(w.pc), w.pc, false)
      ensures unclear == old(unclear)
    {
      var now := Clock();
      var c := Await();
      var honest := Honest(w.server, key, c.redeems, c.consume);
      reply := if honest then c.consume else Err(Failure(None));
      Perform(Thread(now, Protocol.Consume(honest && c.redeems, reply)));
    }

    // Looks at the engine's flag and at cancellation before a pending attempt goes out again.
    method MayContinue() returns (go: bool)
      requires Valid() && w.pc.MayRetry?
      modifies `w, `trace, `visits, `tick, `unclear
      ensures Valid() && old(trace) <= trace && w.audit.successes == old(w.audit.successes) && w.cfg == old(w.cfg)
      ensures w.pc == AfterCheck(old(w.pc), go, None)
      ensures visits == Leaving(old(visits), old(w.pc), w.pc, false)
      ensures unclear == old(unclear)
    {
      var now := Clock();
      var c := Await();
      go := w.active && !c.cancelled;
      Perform(Thread(now, Check(go, None)));
    }

    // The same look before a new attempt, with the idempotency key made for it.
    method NewKey() returns (go: bool, key: Option<string>)
      requires Valid() && w.pc.Decide?
      modifies `w, `trace, `visits, `tick, `unclear
      ensures Valid() && old(trace) <= trace && w.audit.successes == old(w.audit.successes) && w.cfg == old(w.cfg)
      ensures w.pc == AfterCheck(old(w.pc), go, key)
      ensures visits == Leaving(old(visits), old(w.pc), w.pc, go)
      ensures unclear == old(unclear)
    {
      var now := Clock();
      var c := Await();
      go := w.active && !c.cancelled;
      key := if c.key.Some? && c.key.value !in w.audit.issued then c.key else None;
      Perform(Thread(now, Check(go, key)));
    }

    method ResetQuota(authIndex: string, now: Time) returns (reply: ClearReply)
      requires Valid() && w.pc.ClearQuota? && w.pc.clear.authIndex == authIndex && w.since <= now <= w.clock
      requires !Running(w.pc.clear.nextRetryAt, now)
      modifies `w, `trace, `visits, `tick, `unclear
      ensures Valid() && old(trace) <= trace && w.audit.successes == old(w.audit.successes) && w.cfg == old(w.cfg)
      ensures w.pc == AfterClear(old(w.pc), now, reply)
      ensures visits == Leaving(old(visits), old(w.pc), w.pc, false)
      ensures unclear == old(unclear)
    {
      var c := Await();
      reply := c.clearing;
      Perform(Thread(now, Protocol.ResetQuota(reply)));
    }

    // Randomness for one backoff: a jitter of at most a fifth of the base, and the platform's
    // answer to a conversion that overflows.
    method Entropy(base: Time) returns (jitter: Time, converted: Time)
      requires Valid() && MINUTE <= base
      modifies `w, `trace, `visits, `tick, `unclear
      ensures Valid() && Spares(old(w), w) && old(trace) <= trace && visits == old(visits)
      ensures Backoff.JitterOf(base, jitter)
      ensures unclear == old(unclear)
    {
      var c := Await();
      jitter := if Backoff.JitterOf(base, c.jitter) then c.jitter else 0;
      converted := c.converted;
    }

    // One write to the state file, with the given outcome.
    method Write(tx: Tx, now: Time, jitter: Time, converted: Time, outcome: Outcome) returns (failed: bool)
      requires Valid() && Enabled(w, Thread(now, Update(jitter, converted, outcome)))
      requires w.pc.StoreSuccess? ==> w.pc.attempt.key !in w.audit.successes
      requires tx == TxOf(w.pc, w.cfg, now, jitter, converted)
      modifies `w, `trace, `visits, `unclear
      ensures Valid() && old(trace) <= trace && w.cfg == old(w.cfg)
      ensures w.pc == AfterStore(old(w.pc), w.cfg, !failed)
      ensures Counted(|old(w.audit.successes)|, |w.audit.successes|, tx.Succeed? && !failed, unclear - old(unclear))
      ensures !tx.Succeed? ==> w.audit.successes == old(w.audit.successes)
      ensures visits == Leaving(old(visits), old(w.pc), w.pc, false)
    {
      StoreCounted(w, now, jitter, converted, outcome);
      failed := !(Written(w, tx, outcome) && outcome == Committed);
      Perform(Thread(now, Update(jitter, converted, outcome)));
    }

    // `Store.Update` with the closure `tx`; true when it returned an error.
    method Store(tx: Tx, now: Time, jitter: Time, converted: Time) returns (failed: bool)
      requires Valid() && AtStore(w.pc) && w.since <= now <= w.clock
      requires Backoff.JitterOf(JitterBase(w.pc, w.cfg), jitter) && tx == TxOf(w.pc, w.cfg, now, jitter, converted)
      modifies `w, `trace, `visits, `tick, `unclear
      ensures Valid() && old(trace) <= trace && w.cfg == old(w.cfg)
      ensures w.pc == AfterStore(old(w.pc), w.cfg, !failed)
      ensures Counted(|old(w.audit.successes)|, |w.audit.successes|, tx.Succeed? && !failed, unclear - old(unclear))
      ensures !tx.Succeed? ==> w.audit.successes == old(w.audit.successes)
      ensures visits == Leaving(old(visits), old(w.pc), w.pc, false)
    {
      var c := Await();
      if w.pc.StoreSuccess? {
        EndOfRun(start, trace);
        Unclosed(w);
      }
      failed := Write(tx, now, jitter, converted, c.outcome);
    }

    // A store whose closure uses no clock reading of its own.
    method Save(tx: Tx) returns (failed: bool)
      requires Valid() && AtStore(w.pc)
      requires forall now :: tx == TxOf(w.pc, w.cfg, now, 0, 0)
      modifies `w, `trace, `visits, `tick, `unclear
      ensures Valid() && old(trace) <= trace && w.cfg == old(w.cfg)
      ensures w.pc == AfterStore(old(w.pc), w.cfg, !failed)
      ensures Counted(|old(w.audit.successes)|, |w.audit.successes|, tx.Succeed? && !failed, unclear - old(unclear))
      ensures !tx.Succeed? ==> w.audit.successes == old(w.audit.successes)
      ensures visits == Leaving(old(visits), old(w.pc), w.pc, false)
    {
      ClockAhead(start, trace);
      var now := Clock();
      failed := Store(tx, now, 0, 0);
    }

    // ------------------------------------------------------ the engine's methods

    method ProcessAccount(trigger: string, item: Account) returns (eligible: bool, resetDone: bool, failed: bool)
      requires Valid() && w.pc.Idle?
      modifies `w, `trace, `visits, `tick, `unclear
      ensures Valid() && w.pc.Idle? && old(trace) <= trace
      ensures resetDone ==> eligible && !failed
      ensures Counted(|old(w.audit.successes)|, |w.audit.successes|, resetDone, unclear - old(unclear))
      ensures visits == Plus(old(visits), item.ref, Verdict(eligible, resetDone, failed))
    {
      var now := Clock();
      var current := LoadState(item, trigger, now);
      if current.Err? {
        return false, false, true;
      }
      if item.ref !in current.value.accounts {
        return false, false, true;
      }
      var accountState := current.value.accounts[item.ref];
      var usage := Usage();
      if usage.Ok? {
        UpdateUsageSnapshot(item.ref, usage.value, now);
      }
      eligible, resetDone, failed := PassGates(trigger, item, accountState, current.value.management, usage, now);
    }

    // The gates of `processAccount`, and what lies behind each of them.
    method PassGates(trigger: string, item: Account, accountState: AccountState, management: Option<Cooldown>,
                     usage: UsageReply, now: Time)
      returns (eligible: bool, resetDone: bool, failed: bool)
      requires Valid() && w.pc == Gate(Job(item, trigger, now, accountState, management), usage)
      modifies `w, `trace, `visits, `tick, `unclear
      ensures Valid() && w.pc.Idle? && old(trace) <= trace
      ensures resetDone ==> eligible && !failed
      ensures Counted(|old(w.audit.successes)|, |w.audit.successes|, resetDone, unclear - old(unclear))
      ensures var job := Job(item, trigger, now, accountState, management);
              if old(w.pc).Idle?
              then visits == old(visits) && Verdict(eligible, resetDone, failed) == Reported(AskUsage(job), false)
              else visits == Plus(old(visits), item.ref, Verdict(eligible, resetDone, failed))
    {
      var guard := accountState.guard;
      if !accountState.profile.participating {
        Log(LogEntry(now, "account_skipped_not_participating", trigger := trigger, accountRef := item.ref,
                     participating := false, decision := "skip"));
        return false, false, false;
      }
      if item.disabled {
        Log(LogEntry(now, "reset_deferred", trigger := trigger, accountRef := item.ref,
                     participating := true, decision := "disabled"));
        return false, false, false;
      }
      if management.Some? && management.value.until > now {
        return false, false, false;
      }
      if guard.localClear.Some? {
        var _ := RetryLocalClear(trigger, item, guard.localClear.value);
        return false, false, false;
      }
      eligible, resetDone, failed := PassWaits(trigger, item, accountState, usage, now);
    }

    // The gates of an account that takes part and owes nothing: its cooldown and its backoff.
    method PassWaits(trigger: string, item: Account, accountState: AccountState, usage: UsageReply, now: Time)
      returns (eligible: bool, resetDone: bool, failed: bool)
      requires Valid() && accountState.guard.localClear.None?
      requires !w.pc.Idle? ==> w.pc.job == Job(item, trigger, now, accountState, w.pc.job.management)
      requires var job := Job(item, trigger, now, accountState, None); w.pc.Idle? <==> Gate(job, usage).Idle?
      requires accountState.profile.participating && !item.disabled
      requires !w.pc.Idle? ==> w.pc == Gate(w.pc.job, usage)
      modifies `w, `trace, `visits, `tick, `unclear
      ensures Valid() && w.pc.Idle? && old(trace) <= trace
      ensures resetDone ==> eligible && !failed
      ensures Counted(|old(w.audit.successes)|, |w.audit.successes|, resetDone, unclear - old(unclear))
      ensures if old(w.pc).Idle?
              then visits == old(visits) && Verdict(eligible, resetDone, failed) == Verdict(accountState.guard.pending.Some?, false, false)
              else visits == Plus(old(visits), item.ref, Verdict(eligible, resetDone, failed))
    {
      var guard := accountState.guard;
      if guard.cooldown.Some? && guard.cooldown.value.until > now {
        Log(LogEntry(now, "reset_suppressed_cooldown", trigger := trigger, accountRef := item.ref,
                     participating := true, nextAttemptAt := guard.cooldown.value.until));
        return false, false, false;
      }
      if guard.backoff.Some? && guard.backoff.value.until > now {
        return guard.pending.Some?, false, false;
      }
      if guard.pending.Some? {
        resetDone := ResolvePending(trigger, item, guard.pending.value);
        return true, resetDone, false;
      }
      eligible, resetDone, failed := StartAttempt(trigger, item, accountState, usage, now);
    }

    // The second half of `processAccount`: from the credit list to the Consume call.
    method StartAttempt(trigger: string, item: Account, accountState: AccountState, usage: UsageReply, now: Time)
      returns (eligible: bool, resetDone: bool, failed: bool)
      requires Valid() && w.pc.AskCredits? && w.pc.reply == usage
      requires w.pc.job == Job(item, trigger, now, accountState, w.pc.job.management)
      requires accountState.guard.pending.None? && accountState.guard.localClear.None?
      modifies `w, `trace, `visits, `tick, `unclear
      ensures Valid() && w.pc.Idle? && old(trace) <= trace
      ensures resetDone ==> eligible && !failed
      ensures Counted(|old(w.audit.successes)|, |w.audit.successes|, resetDone, unclear - old(unclear))
      ensures visits == Plus(old(visits), item.ref, Verdict(eligible, resetDone, failed))
    {
      ghost var job := w.pc.job;
      var guard := accountState.guard;
      var credits := Credits(now);
      if credits.Err? {
        RecordTransientFailure(item.ref, trigger, "credit_list_failed", credits.error);
        return false, false, true;
      }
      UpdateCreditSnapshot(item.ref, credits.value, now);
      var credit := FirstUsable(credits.value.available, guard.tombstones);
      if credit.None? {
        return false, false, false;
      }
      eligible, resetDone, failed := WeighCredit(trigger, item, guard, usage, credit.value, now);
    }

    // The window before a credit's expiry outside of which it is left alone.
    method WeighCredit(trigger: string, item: Account, guard: Guard, usage: UsageReply, credit: Credit, now: Time)
      returns (eligible: bool, resetDone: bool, failed: bool)
      requires Valid() && w.pc.NoteCredit? && w.pc.reply == usage && w.pc.credit == credit
      requires var j := w.pc.job; j.item == item && j.trigger == trigger && j.now == now && j.snap.guard == guard
      requires guard.pending.None? && guard.localClear.None?
      modifies `w, `trace, `visits, `tick, `unclear
      ensures Valid() && w.pc.Idle? && old(trace) <= trace
      // The credit is gone after if and only if the rule says so.
      ensures eligible <==> usage.Ok? && Rules.MeetsRule(old(w.cfg).resetThreshold, usage.value, credit.expiresAt, now)
      ensures resetDone ==> eligible && !failed
      ensures Counted(|old(w.audit.successes)|, |w.audit.successes|, resetDone, unclear - old(unclear))
      ensures visits == Plus(old(visits), item.ref, Verdict(eligible, resetDone, failed))
    {
      var blocked := usage.Ok? && usage.value.blocked;
      var decision, next := "candidate", ZERO_TIME;
      if !blocked && credit.expiresAt - now > CANDIDATE_WINDOW {
        decision := "outside_candidate_window";
        next := credit.expiresAt - CANDIDATE_WINDOW;
      }
      Log(LogEntry(now, "credit_discovered", trigger := trigger, accountRef := item.ref,
                   participating := true, creditRef := credit.ref, decision := decision,
                   nextAttemptAt := next));
      if !blocked && credit.expiresAt - now > CANDIDATE_WINDOW {
        return false, false, false;
      }
      eligible, resetDone, failed := WeighUsage(trigger, item, guard, usage, credit, now);
    }

    // The threshold, which the last half hour of a credit lowers to anything used at all.
    method WeighUsage(trigger: string, item: Account, guard: Guard, usage: UsageReply, credit: Credit, now: Time)
      returns (eligible: bool, resetDone: bool, failed: bool)
      requires Valid() && !w.pc.Idle? && guard.pending.None? && guard.localClear.None?
      requires var j := w.pc.job; j.item == item && j.trigger == trigger && j.now == now && j.snap.guard == guard
      requires w.pc == AfterStore(NoteCredit(w.pc.job, usage, credit), w.cfg, true) && !OutsideWindow(w.pc.job, usage, credit)
      modifies `w, `trace, `visits, `tick, `unclear
      ensures Valid() && w.pc.Idle? && old(trace) <= trace
      // The credit is gone after if and only if the rule says so.
      ensures eligible <==> usage.Ok? && Rules.MeetsRule(old(w.cfg).resetThreshold, usage.value, credit.expiresAt, now)
      ensures resetDone ==> eligible && !failed
      ensures Counted(|old(w.audit.successes)|, |w.audit.successes|, resetDone, unclear - old(unclear))
      ensures visits == Plus(old(visits), item.ref, Verdict(eligible, resetDone, failed))
    {
      if usage.Err? {
        RecordTransientFailure(item.ref, trigger, "usage_failed", usage.error);
        return false, false, true;
      }
      var protection := credit.expiresAt - now <= PROTECTION_WINDOW;
      if !usage.value.blocked && usage.value.usedPercent < w.cfg.resetThreshold
         && !(protection && usage.value.usedPercent > 0.0) {
        Log(LogEntry(now, "reset_deferred", trigger := trigger, accountRef := item.ref,
                     participating := true, creditRef := credit.ref,
                     decision := "below_threshold"));
        return false, false, false;
      }
      eligible, resetDone, failed := SpendCredit(trigger, item, guard, usage.value, credit, now);
    }

    // The rest: the second look at the list, the stored attempt, and the Consume call.
    method SpendCredit(trigger: string, item: Account, guard: Guard, usage: Usage, credit: Credit, now: Time)
      returns (eligible: bool, resetDone: bool, failed: bool)
      requires Valid() && w.pc.Recheck? && w.pc.usage == usage && w.pc.credit == credit
      requires var j := w.pc.job; j.item == item && j.trigger == trigger && j.now == now && j.snap.guard == guard
      requires guard.pending.None? && guard.localClear.None?
      modifies `w, `trace, `visits, `tick, `unclear
      ensures Valid() && w.pc.Idle? && old(trace) <= trace
      ensures eligible && (resetDone ==> !failed)
      ensures Counted(|old(w.audit.successes)|, |w.audit.successes|, resetDone, unclear - old(unclear))
      ensures visits == Plus(old(visits), item.ref, Verdict(eligible, resetDone, failed))
    {
      var rechecked := Credits(now);
      if rechecked.Err? {
        RecordTransientFailure(item.ref, trigger, "credit_recheck_failed", rechecked.error);
        return true, false, true;
      }
      var again := FirstUsable(rechecked.value.available, guard.tombstones);
      if again.None? || again.value.id != credit.id {
        return true, false, false;
      }
      var count := rechecked.value.availableCount;
      var fingerprint := Fingerprint.Of(item.ref, credit.ref, usage, count);
      if guard.backoff.Some? {
        if guard.backoff.value.until > now {
          return true, false, false;
        }
        if guard.backoff.value.fingerprint == fingerprint {
          return true, false, false;
        }
      }
      eligible, resetDone, failed := Launch(trigger, item, usage, credit, count, fingerprint, now);
    }

    // The attempt is made, stored, and only then sent.
    method Launch(trigger: string, item: Account, usage: Usage, credit: Credit, count: int, fingerprint: string, now: Time)
      returns (eligible: bool, resetDone: bool, failed: bool)
      requires Valid() && w.pc.Decide? && w.pc == Decide(w.pc.job, usage, credit, count)
      requires var j := w.pc.job; j.item == item && j.trigger == trigger && j.now == now
      requires fingerprint == Fingerprint.Of(item.ref, credit.ref, usage, count)
      requires w.pc.job.snap.guard.pending.None? && w.pc.job.snap.guard.localClear.None?
      modifies `w, `trace, `visits, `tick, `unclear
      ensures Valid() && w.pc.Idle? && old(trace) <= trace
      ensures eligible && (resetDone ==> !failed)
      ensures Counted(|old(w.audit.successes)|, |w.audit.successes|, resetDone, unclear - old(unclear))
      ensures visits == Plus(old(visits), item.ref, Verdict(eligible, resetDone, failed))
    {
      var go, key := NewKey();
      if !go {
        return true, false, false;
      }
      if key.None? {
        return true, false, true;
      }
      var attempt := Attempt(credit.id, credit.ref, key.value, now, credit.expiresAt, "persisted", fingerprint, 0,
                             count, usage.usedPercent, usage.blocked);
      var refused := PersistAttempt(item.ref, trigger, attempt, now);
      if refused {
        return true, false, true;
      }
      resetDone, failed := Send(trigger, item, attempt);
      return true, resetDone, failed;
    }

    method UpdateUsageSnapshot(ref: string, usage: Usage, now: Time)
      requires Valid() && w.pc.StoreUsage? && w.pc.usage == usage && w.pc.job.item.ref == ref && w.pc.job.now == now
      modifies `w, `trace, `visits, `tick, `unclear
      ensures Valid() && old(trace) <= trace && old(unclear) <= unclear && w.audit.successes == old(w.audit.successes)
      ensures w.cfg == old(w.cfg) && w.pc == Gate(old(w.pc).job, Ok(usage))
      ensures visits == Leaving(old(visits), old(w.pc), w.pc, false)
    {
      var _ := Save(SaveUsage(ref, usage, now));
    }

    method UpdateCreditSnapshot(ref: string, credits: CreditList, now: Time)
      requires Valid() && w.pc.StoreCredits? && w.pc.list == credits && w.pc.job.item.ref == ref && w.pc.job.now == now
      modifies `w, `trace, `visits, `tick, `unclear
      ensures Valid() && old(trace) <= trace && old(unclear) <= unclear && w.audit.successes == old(w.audit.successes)
      ensures w.cfg == old(w.cfg)
      ensures var first := FirstUsable(credits.available, old(w.pc).job.snap.guard.tombstones);
              w.pc == if first.None? then Idle else NoteCredit(old(w.pc).job, old(w.pc).reply, first.value)
      ensures visits == Leaving(old(visits), old(w.pc), w.pc, false)
    {
      var _ := Save(SaveCredits(ref, credits, now));
    }

    method Log(entry: LogEntry)
      requires Valid() && (w.pc.LeaveNote? || w.pc.NoteCredit?) && TxOf(w.pc, w.cfg, 0, 0, 0) == Note(entry)
      modifies `w, `trace, `visits, `tick, `unclear
      ensures Valid() && old(trace) <= trace && old(unclear) <= unclear && w.audit.successes == old(w.audit.successes)
      ensures w.cfg == old(w.cfg) && w.pc == AfterStore(old(w.pc), w.cfg, true)
      ensures visits == Leaving(old(visits), old(w.pc), w.pc, false)
    {
      var _ := Save(Note(entry));
    }

    method PersistAttempt(ref: string, trigger: string, attempt: Attempt, now: Time) returns (refused: bool)
      requires Valid() && w.pc.StoreAttempt? && w.pc.attempt == attempt
      requires w.pc.job.item.ref == ref && w.pc.job.trigger == trigger && w.pc.job.now == now
      modifies `w, `trace, `visits, `tick, `unclear
      ensures Valid() && old(trace) <= trace && old(unclear) <= unclear && w.audit.successes == old(w.audit.successes)
      ensures w.cfg == old(w.cfg) && w.pc == if refused then Idle else Spend(old(w.pc).job, attempt)
      ensures visits == Leaving(old(visits), old(w.pc), w.pc, false)
    {
      refused := Save(Persist(ref, trigger, attempt, now));
    }

    method ResolvePending(trigger: string, item: Account, attempt: Attempt) returns (done: bool)
      requires Valid() && w.pc.VerifyCredits? && w.pc.attempt == attempt
      requires w.pc.job.item == item && w.pc.job.trigger == trigger
      requires w.pc.job.snap.guard.pending.Some? && w.pc.job.snap.guard.localClear.None?
      modifies `w, `trace, `visits, `tick, `unclear
      ensures Valid() && w.pc.Idle? && old(trace) <= trace && old(unclear) <= unclear
      ensures Counted(|old(w.audit.successes)|, |w.audit.successes|, done, unclear - old(unclear))
      ensures visits == Plus(old(visits), item.ref, Verdict(true, done, false))
    {
      var now := Clock();
      var credits := Credits(now);
      if credits.Err? {
        BumpPendingVerification(item.ref, attempt, "credit_verify_failed");
        return false;
      }
      var usage := Usage();
      if usage.Err? {
        BumpPendingVerification(item.ref, attempt, "usage_verify_failed");
        return false;
      }
      done := SettlePending(trigger, item, attempt, usage.value, credits.value);
    }

    // What a list says about a pending attempt: closed, given up, or sent again.
    method SettlePending(trigger: string, item: Account, attempt: Attempt, ghost usage: Usage, credits: CreditList)
      returns (done: bool)
      requires Valid() && !w.pc.Idle? && w.pc == AfterUsage(VerifyUsage(w.pc.job, attempt, credits), Ok(usage))
      requires w.pc.job.item == item && w.pc.job.trigger == trigger
      requires w.pc.job.snap.guard.pending.Some? && w.pc.job.snap.guard.localClear.None?
      modifies `w, `trace, `visits, `tick, `unclear
      ensures Valid() && w.pc.Idle? && old(trace) <= trace && old(unclear) <= unclear
      ensures Counted(|old(w.audit.successes)|, |w.audit.successes|, done, unclear - old(unclear))
      ensures visits == Plus(old(visits), item.ref, Verdict(true, done, false))
    {
      var creditStillAvailable := Lists(credits.available, attempt.creditId);
      if !creditStillAvailable {
        done := CompleteSuccessfulReset(trigger, item, attempt, "verified_credit_consumed");
        return;
      }
      if attempt.verificationCount >= MAXIMUM_VERIFICATION_TRIES {
        ApplyFailure(item.ref, trigger, attempt.fingerprint, "ambiguous_verification_exhausted", false, attempt.creditId);
        return false;
      }
      var go := MayContinue();
      if !go {
        return false;
      }
      var sent, _ := Send(trigger, item, attempt);
      return sent;
    }

    // The Consume call of a stored attempt, new or pending, and the store of what came of it.
    method Send(trigger: string, item: Account, attempt: Attempt) returns (done: bool, failed: bool)
      requires Valid() && w.pc.Spend? && w.pc.attempt == attempt
      requires w.pc.job.item == item && w.pc.job.trigger == trigger && w.pc.job.snap.guard.localClear.None?
      modifies `w, `trace, `visits, `tick, `unclear
      ensures Valid() && w.pc.Idle? && old(trace) <= trace && old(unclear) <= unclear && !(done && failed)
      ensures Counted(|old(w.audit.successes)|, |w.audit.successes|, done, unclear - old(unclear))
      ensures visits == Plus(old(visits), item.ref, Verdict(true, done, failed && old(w.pc).job.snap.guard.pending.None?))
    {
      var result := Consume(attempt.creditId, attempt.key);
      if result.Err? {
        MarkAmbiguous(item.ref, trigger, attempt, result.error);
        return false, true;
      }
      done := HandleConsumeResult(trigger, item, attempt, result.value);
      return done, false;
    }

    method HandleConsumeResult(trigger: string, item: Account, attempt: Attempt, code: ConsumeCode) returns (done: bool)
      requires Valid() && (w.pc.StoreFailure? || w.pc.ConfirmCredits?)
      requires w.pc == AfterConsume(Spend(w.pc.job, attempt), Ok(code))
      requires w.pc.job.item == item && w.pc.job.trigger == trigger
      requires w.pc.job.snap.guard.localClear.None?
      modifies `w, `trace, `visits, `tick, `unclear
      ensures Valid() && w.pc.Idle? && old(trace) <= trace && old(unclear) <= unclear
      ensures Counted(|old(w.audit.successes)|, |w.audit.successes|, done, unclear - old(unclear))
      ensures visits == Plus(old(visits), item.ref, Verdict(true, done, false))
      ensures done ==> code.Reset? || code.AlreadyRedeemed?
    {
      done := false;
      match code {
        case Reset => done := CompleteSuccessfulReset(trigger, item, attempt, "reset");
        case AlreadyRedeemed => done := CompleteSuccessfulReset(trigger, item, attempt, "already_redeemed");
        case NothingToReset =>
          ApplyFailure(item.ref, trigger, attempt.fingerprint, "nothing_to_reset", false, attempt.creditId);
        case NoCredit =>
          ApplyFailure(item.ref, trigger, attempt.fingerprint, "no_credit", true, attempt.creditId);
      }
    }

    method CompleteSuccessfulReset(trigger: string, item: Account, attempt: Attempt, outcome: string) returns (done: bool)
      requires Valid() && w.pc.ConfirmCredits? && w.pc.attempt == attempt && w.pc.outcome == outcome
      requires w.pc.job.item == item && w.pc.job.trigger == trigger
      requires w.pc.job.snap.guard.localClear.None?
      modifies `w, `trace, `visits, `tick, `unclear
      ensures Valid() && w.pc.Idle? && old(trace) <= trace && old(unclear) <= unclear
      ensures Counted(|old(w.audit.successes)|, |w.audit.successes|, done, unclear - old(unclear))
      ensures visits == Plus(old(visits), item.ref, Verdict(true, done, false))
    {
      var now := Clock();
      var verified := VerifyReset(attempt, now);
      var full := outcome + (if verified then "_verified" else "_unverified");
      var cooldownUntil := now + w.cfg.postResetCooldown;
      var failed := Save(Succeed(item.ref, trigger, item.authIndex, attempt, full, now, cooldownUntil));
      if failed {
        return false;
      }
      var _ := RetryLocalClear(trigger, item, LocalClear(item.authIndex, now, now, 0));
      return true;
    }

    method VerifyReset(attempt: Attempt, now: Time) returns (verified: bool)
      requires Valid() && w.pc.ConfirmCredits? && w.pc.attempt == attempt && w.since <= now <= w.clock
      modifies `w, `trace, `visits, `tick, `unclear
      ensures Valid() && old(trace) <= trace && w.audit.successes == old(w.audit.successes) && w.cfg == old(w.cfg)
      ensures var pc := old(w.pc);
              w.pc == StoreSuccess(pc.job, attempt, pc.outcome + (if verified then "_verified" else "_unverified"), pc.spent, now)
      ensures visits == old(visits) && unclear == old(unclear)
    {
      var credits := Credits(now);
      var usage := Usage();
      if credits.Err? || usage.Err? {
        return false;
      }
      var creditPresent := Lists(credits.value.available, attempt.creditId);
      var creditChanged := !creditPresent || credits.value.availableCount < attempt.preAvailableCount;
      var usageChanged := usage.value.usedPercent < attempt.preUsedPercent || (attempt.preBlocked && !usage.value.blocked);
      return creditChanged && usageChanged;
    }

    method RetryLocalClear(trigger: string, item: Account, pending: LocalClear) returns (done: bool)
      requires Valid() && w.pc.ClearQuota? && w.pc.clear == pending
      requires w.pc.job.item == item && w.pc.job.trigger == trigger
      modifies `w, `trace, `visits, `tick, `unclear
      ensures Valid() && w.pc.Idle? && old(trace) <= trace && old(unclear) <= unclear
      ensures w.audit.successes == old(w.audit.successes)
      ensures visits == Plus(old(visits), item.ref, AfterClearing(old(w.pc).job))
    {
      var now := Clock();
      if pending.nextRetryAt > now {
        // Nothing is sent; the visit is over.
        Perform(Thread(now, Protocol.ResetQuota(ClearFailed)));
        return false;
      }
      var reply := ResetQuota(pending.authIndex, now);
      if reply.ClearDone? {
        Discharge(trigger, item, now);
        return true;
      }
      KeepOwing(trigger, item, pending, now, reply.ClearUnauthorized?);
      return false;
    }

    // A local clear that succeeded is no longer owed.
    method Discharge(trigger: string, item: Account, now: Time)
      requires Valid() && w.pc.StoreCleared? && w.pc.now == now && w.pc.job.item == item && w.pc.job.trigger == trigger
      modifies `w, `trace, `visits, `tick, `unclear
      ensures Valid() && w.pc.Idle? && old(trace) <= trace && old(unclear) <= unclear
      ensures w.audit.successes == old(w.audit.successes)
      ensures visits == Plus(old(visits), item.ref, AfterClearing(old(w.pc).job))
    {
      var _ := Save(Cleared(item.ref, trigger, now));
    }

    // A local clear that failed stays owed, with a later retry.
    method KeepOwing(trigger: string, item: Account, pending: LocalClear, now: Time, unauthorized: bool)
      requires Valid() && w.pc.StoreUncleared? && w.pc == StoreUncleared(w.pc.job, pending, now, unauthorized)
      requires w.pc.job.item == item && w.pc.job.trigger == trigger
      modifies `w, `trace, `visits, `tick, `unclear
      ensures Valid() && w.pc.Idle? && old(trace) <= trace && old(unclear) <= unclear
      ensures w.audit.successes == old(w.audit.successes)
      ensures visits == Plus(old(visits), item.ref, AfterClearing(old(w.pc).job))
    {
      FixedConfig(start, trace);
      var at := Clock();
      var _, converted := Entropy(MINUTE);
      var next := now + Backoff.Duration(pending.attempts + 1, MINUTE, Backoff.LONGEST_CLEAR_RETRY, 0, converted);
      var _ := Store(Uncleared(item.ref, trigger, pending, now, next, unauthorized), at, 0, converted);
    }

    method MarkAmbiguous(ref: string, trigger: string, attempt: Attempt, cause: Failure)
      requires Valid() && w.pc.StoreAmbiguous? && w.pc.attempt == attempt && w.pc.failure == cause
      requires w.pc.job.item.ref == ref && w.pc.job.trigger == trigger
      modifies `w, `trace, `visits, `tick, `unclear
      ensures Valid() && w.pc.Idle? && old(trace) <= trace && old(unclear) <= unclear
      ensures w.audit.successes == old(w.audit.successes)
      ensures visits == Plus(old(visits), ref, Verdict(true, false, old(w.pc).job.snap.guard.pending.None?))
    {
      FixedConfig(start, trace);
      var now := Clock();
      var jitter, converted := Entropy(w.cfg.failureBackoff);
      var delay := Backoff.Transient(cause.retryAfter, attempt.verificationCount + 1, w.cfg.failureBackoff, jitter, converted);
      var _ := Store(Postpone(ref, trigger, attempt, now, now + delay), now, jitter, converted);
    }

    method BumpPendingVerification(ref: string, attempt: Attempt, reason: string)
      requires Valid() && w.pc.StoreBump? && w.pc.attempt == attempt && w.pc.reason == reason && w.pc.job.item.ref == ref
      modifies `w, `trace, `visits, `tick, `unclear
      ensures Valid() && w.pc.Idle? && old(trace) <= trace && old(unclear) <= unclear
      ensures w.audit.successes == old(w.audit.successes)
      ensures visits == Plus(old(visits), ref, Verdict(true, false, false))
    {
      FixedConfig(start, trace);
      var now := Clock();
      var jitter, converted := Entropy(w.cfg.failureBackoff);
      var delay := Backoff.Transient(None, attempt.verificationCount + 1, w.cfg.failureBackoff, jitter, converted);
      var _ := Store(Bump(ref, attempt, reason, now + delay), now, jitter, converted);
    }

    method ApplyFailure(ref: string, trigger: string, fingerprint: string, outcome: string, tombstone: bool, creditId: string)
      requires Valid() && w.pc.StoreFailure? && w.pc.job.item.ref == ref && w.pc.job.trigger == trigger
      requires w.pc.outcome == outcome && w.pc.tombstone == tombstone
      requires w.pc.attempt.fingerprint == fingerprint && w.pc.attempt.creditId == creditId
      modifies `w, `trace, `visits, `tick, `unclear
      ensures Valid() && w.pc.Idle? && old(trace) <= trace && old(unclear) <= unclear
      ensures w.audit.successes == old(w.audit.successes)
      ensures visits == Plus(old(visits), ref, Verdict(true, false, false))
    {
      var now := Clock();
      var base := FailureBase();
      var jitter, converted := Entropy(base);
      var delay := Backoff.Transient(None, 1, base, jitter, converted);
      var _ := Store(Fail(ref, trigger, fingerprint, outcome, tombstone, creditId, now, now + delay), now, jitter, converted);
    }

    // The base of a logical failure's delay: what is configured, but half an hour at least.
    method FailureBase() returns (base: Time)
      ensures base == Backoff.LogicalBase(w.cfg.failureBackoff)
    {
      base := w.cfg.failureBackoff;
      if base < Backoff.MINIMUM_FAILURE_BACKOFF {
        base := Backoff.MINIMUM_FAILURE_BACKOFF;
      }
    }

    method RecordTransientFailure(ref: string, trigger: string, code: string, cause: Failure)
      requires Valid() && w.pc.StoreDeferral? && w.pc.job.item.ref == ref && w.pc.job.trigger == trigger
      requires w.pc.code == code && w.pc.failure == cause
      modifies `w, `trace, `visits, `tick, `unclear
      ensures Valid() && w.pc.Idle? && old(trace) <= trace && old(unclear) <= unclear
      ensures w.audit.successes == old(w.audit.successes)
      ensures visits == Plus(old(visits), ref, Verdict(code == "credit_recheck_failed", false, true))
    {
      FixedConfig(start, trace);
      var now := Clock();
      var jitter, converted := Entropy(w.cfg.failureBackoff);
      var delay := Backoff.Transient(cause.retryAfter, 1, w.cfg.failureBackoff, jitter, converted);
      var _ := Store(Defer(ref, trigger, code, now, now + delay), now, jitter, converted);
    }

    // Since the step `from`, the transaction has been committed outside the processing of an account.
    ghost predicate Recorded(from: nat, tx: Tx)
      reads this
    {
      Edit(tx, Committed) in trace[Min(from, |trace|)..]
    }

    // A store outside the processing of an account.
    method Commit(tx: Tx) returns (failed: bool)
      requires Valid() && IsEdit(tx)
      modifies `w, `trace, `visits, `tick, `unclear
      ensures Valid() && old(trace) <= trace && w.pc == old(w.pc) && w.audit.successes == old(w.audit.successes)
      ensures visits == old(visits) && (w.active ==> old(w.active)) && tick == old(tick) + 1
      ensures failed <==> !script(old(tick)).outcome.Committed?
      ensures !failed ==> Recorded(|old(trace)|, tx) && (tx.Finish? ==> w.disk.lastScan == tx.summary)
      ensures unclear == old(unclear)
    {
      var c := Await();
      failed := !c.outcome.Committed?;
      Perform(Edit(tx, c.outcome));
    }

    // The visits since `before` went to the accounts `found`, in order, and to all of them unless the scan
    // was cancelled or the engine stopped.
    ghost predicate Visited(before: Totals, found: seq<Account>)
      reads this
    {
      exists n :: 0 <= n <= |found| && visits.refs == before.refs + Refs(found[..n])
                  && (n == |found| || !w.active || exists t: nat :: t < tick && script(t).cancelled)
    }

    // The loop over the accounts of one scan.
    method ScanAccounts(begun: ScanSummary, found: seq<Account>) returns (summary: ScanSummary)
      requires Valid() && w.pc.Idle? && begun.eligible == begun.reset == begun.errors == 0
      modifies `w, `trace, `visits, `tick, `unclear
      ensures Valid() && w.pc.Idle? && old(trace) <= trace
      ensures summary == Summed(begun, old(visits), visits)
      // Every account is visited, in order, unless the scan was cancelled or the engine stopped.
      ensures Visited(old(visits), found)
      ensures 0 <= summary.reset <= summary.eligible <= |found| && 0 <= summary.errors <= |found|
      ensures var counted := |old(w.audit.successes)| + summary.reset;
              old(unclear) <= unclear && counted <= |w.audit.successes| <= counted + (unclear - old(unclear))
    {
      summary := begun;
      for i := 0 to |found|
        invariant Valid() && w.pc.Idle? && old(trace) <= trace && old(unclear) <= unclear
        invariant summary == Summed(begun, old(visits), visits)
        invariant visits.refs == old(visits).refs + Refs(found[..i])
        invariant 0 <= summary.reset <= summary.eligible <= i && 0 <= summary.errors <= i
        invariant var counted := |old(w.audit.successes)| + summary.reset;
          counted <= |w.audit.successes| <= counted + (unclear - old(unclear))
      {
        var c := Await();
        if c.cancelled || !w.active {
          return;
        }
        assert found[..i + 1] == found[..i] + [found[i]];
        var eligible, resetDone, errProcess := ProcessAccount(begun.trigger, found[i]);
        if eligible {
          summary := summary.(eligible := summary.eligible + 1);
        }
        if resetDone {
          summary := summary.(reset := summary.reset + 1);
        }
        if errProcess {
          summary := summary.(errors := summary.errors + 1);
        }
      }
    }

    // What a scan promises that has reported `summary` and, if it was refused, an error.
    ghost predicate Accounted(summary: ScanSummary, refused: bool, before: Totals)
      reads this
    {
      && 0 <= summary.reset <= summary.eligible <= summary.accounts
      && 0 <= summary.errors
      // The summary adds up what the visits reported, and is on disk.
      && summary.eligible == visits.eligible - before.eligible && summary.reset == visits.resets - before.resets
      && (summary.error == "" ==> summary.errors == visits.errors - before.errors)
      && (!refused ==> w.disk.lastScan == summary)
    }

    // A scan whose start entry is written before the moment `t` has no account to count its one error for:
    // nothing can be listed, or nobody is found and not even that is written.
    predicate CannotCount(t: nat, host: Option<Host>) {
      host.None? || (Candidates(host.value.entries, host.value.auths) == [] && !script(t).outcome.Committed?)
    }

    ghost predicate ScansHost(summary: ScanSummary, host: Option<Host>, participating: bool, from: nat, before: Totals)
      reads this
    {
      host.Some? && exists found :: Canonical(found, Candidates(host.value.entries, host.value.auths))
                                    && ScansAll(summary, found, participating, from, before)
    }

    // A scan over the host's auth files, if it lists them. The lock that keeps scans apart is in `Lifecycle`.
    method Scan(trigger: string, host: Option<Host>, participating: bool)
      returns (summary: ScanSummary, refused: bool)
      requires Valid() && w.pc.Idle?
      modifies `w, `trace, `visits, `tick, `unclear
      ensures Valid() && w.pc.Idle? && old(trace) <= trace
      ensures Accounted(summary, refused, old(visits))
      ensures old(w.active) ==> summary.trigger == SanitizeTrigger(trigger)
      // Errors never exceed the accounts, but for the one error of a scan whose start entry cannot be written or
      // that has no account to count it for.
      ensures summary.errors > summary.accounts <==>
              old(w.active) && configured && (!script(old(tick) + 1).outcome.Committed? || CannotCount(old(tick) + 2, host))
      ensures !refused ==> ScansHost(summary, host, participating, |old(trace)|, old(visits))
      // The count of resets is the number of successes this scan committed.
      ensures var counted := |old(w.audit.successes)| + summary.reset;
              old(unclear) <= unclear && counted <= |w.audit.successes| <= counted + (unclear - old(unclear))
    {
      if !w.active {
        return NO_SCAN, true;
      }
      var started := Clock();
      var begun := NO_SCAN.(startedAt := started, trigger := SanitizeTrigger(trigger));
      if !configured {
        var _ := Clock();
        return begun.(finishedAt := w.clock, error := "plugin configuration is incomplete"), true;
      }
      summary, refused := ScanHost(begun, host, participating);
    }

    // A scan of a configured engine: it writes its start entry, then discovers and visits what the host lists.
    method ScanHost(begun: ScanSummary, host: Option<Host>, participating: bool)
      returns (summary: ScanSummary, refused: bool)
      requires Valid() && w.pc.Idle? && begun.accounts == begun.eligible == begun.reset == begun.errors == 0 && begun.error == ""
      modifies `w, `trace, `visits, `tick, `unclear
      ensures Valid() && w.pc.Idle? && old(trace) <= trace
      ensures Accounted(summary, refused, old(visits)) && summary.trigger == begun.trigger
      ensures summary.errors > summary.accounts <==>
              !script(old(tick)).outcome.Committed? || CannotCount(old(tick) + 1, host)
      ensures !refused ==> ScansHost(summary, host, participating, |old(trace)|, old(visits))
      ensures var counted := |old(w.audit.successes)| + summary.reset;
              old(unclear) <= unclear && counted <= |w.audit.successes| <= counted + (unclear - old(unclear))
    {
      var failed := Commit(Note(LogEntry(begun.startedAt, "scan_started", trigger := begun.trigger)));
      if failed {
        return begun.(finishedAt := w.clock, errors := 1, error := "persistent state is unavailable"), true;
      }
      if host.None? {
        summary := begun.(finishedAt := w.clock, errors := 1, error := "account discovery failed");
        var _ := Commit(Finish(summary));
        return summary, true;
      }
      var found := Discover(host.value.entries, host.value.auths);
      EmptyDiscovery(found, Candidates(host.value.entries, host.value.auths));
      summary, refused := ScanFound(begun, found, participating);
    }

    // A scan that went through recorded what was found, and visited all of it unless it was cut short.
    ghost predicate ScansAll(summary: ScanSummary, found: seq<Account>, participating: bool, from: nat, before: Totals)
      reads this
    {
      && summary.accounts == |found| && Visited(before, found)
      && Recorded(from, Reconcile(found, participating, summary.startedAt))
    }

    // The second half of `Scan`: discovery has succeeded.
    method ScanFound(begun: ScanSummary, found: seq<Account>, participating: bool)
      returns (summary: ScanSummary, refused: bool)
      requires Valid() && w.pc.Idle? && begun.eligible == begun.reset == begun.errors == 0 && begun.error == ""
      modifies `w, `trace, `visits, `tick, `unclear
      ensures Valid() && w.pc.Idle? && old(trace) <= trace
      ensures Accounted(summary, refused, old(visits)) && summary.trigger == begun.trigger
      ensures summary.errors > summary.accounts <==> found == [] && !script(old(tick)).outcome.Committed?
      ensures !refused ==> ScansAll(summary, found, participating, |old(trace)|, old(visits))
      ensures var counted := |old(w.audit.successes)| + summary.reset;
              old(unclear) <= unclear && counted <= |w.audit.successes| <= counted + (unclear - old(unclear))
    {
      summary := begun.(accounts := |found|);
      var failed := Commit(Reconcile(found, participating, begun.startedAt));
      if failed {
        return summary.(finishedAt := w.clock, errors := 1, error := "persistent state is unavailable"), true;
      }
      summary := ScanAccounts(summary, found);
      summary := summary.(finishedAt := w.clock);
      refused := Commit(Finish(summary));
    }
  }

  function SanitizeTrigger(trigger: string): (r: string)
    ensures r in {"startup", "scheduled", "manual", "usage"}
    ensures r == Text.TrimSpace(trigger) || (r == "manual" && Text.TrimSpace(trigger) !in {"startup", "scheduled", "usage"})
  {
    var t := Text.TrimSpace(trigger);
    if t in {"startup", "scheduled", "manual", "usage"} then t else "manual"
  }

  // Whether a credit with this ID is among the listed ones.
  method Lists(credits: seq<Credit>, id: string) returns (found: bool)
    ensures found <==> Contains(credits, id)
  {
    for i := 0 to |credits|
      invariant !Contains(credits[..i], id)
    {
      assert credits[..i + 1] == credits[..i] + [credits[i]];
      if credits[i].id == id {
        assert credits[i] in credits;
        return true;
      }
    }
    assert credits[..|credits|] == credits;
    return false;
  }

  // Recording a success adds its key, and nothing else adds one.
  lemma RecordCounts(audit: Audit, tx: Tx, s: State)
    ensures if tx.Succeed? && tx.attempt.key !in audit.successes
            then |Record(audit, tx, s).successes| == |audit.successes| + 1
            else !tx.Succeed? ==> Record(audit, tx, s).successes == audit.successes
  {
  }

  // The attempt of a success about to be stored has not been closed.
  lemma Unclosed(w: World)
    requires Inv(w) && w.pc.StoreSuccess?
    ensures w.pc.attempt.key !in w.audit.successes
  {
    assert AccountInv(w, w.pc.job.item.ref);
  }

  // A store adds one success, for a key that had none, or none at all.
  lemma StoreCounts(w: World, now: Time, jitter: Time, converted: Time, outcome: Outcome)
    requires Enabled(w, Thread(now, Update(jitter, converted, outcome)))
    requires w.pc.StoreSuccess? ==> w.pc.attempt.key !in w.audit.successes
    ensures var tx := TxOf(w.pc, w.cfg, now, jitter, converted);
            var v := Next(w, Thread(now, Update(jitter, converted, outcome)));
            && v.pc == AfterStore(w.pc, w.cfg, Written(w, tx, outcome) && outcome == Committed)
            && v.cfg == w.cfg
            && (if tx.Succeed? && Written(w, tx, outcome)
                then |v.audit.successes| == |w.audit.successes| + 1 else v.audit.successes == w.audit.successes)
  {
    RecordCounts(w.audit, TxOf(w.pc, w.cfg, now, jitter, converted), w.disk);
  }

  // The same, for the caller of the store: a write that was reported as failed may have added one more.
  lemma StoreCounted(w: World, now: Time, jitter: Time, converted: Time, outcome: Outcome)
    requires Enabled(w, Thread(now, Update(jitter, converted, outcome)))
    requires w.pc.StoreSuccess? ==> w.pc.attempt.key !in w.audit.successes
    ensures var tx, a := TxOf(w.pc, w.cfg, now, jitter, converted), Thread(now, Update(jitter, converted, outcome));
            var v := Next(w, a); var done := Written(w, tx, outcome) && outcome == Committed;
            && v.pc == AfterStore(w.pc, w.cfg, done) && v.cfg == w.cfg
            && Counted(|w.audit.successes|, |v.audit.successes|, tx.Succeed? && done, if HalfFailed(a) then 1 else 0)
            && (!tx.Succeed? ==> v.audit.successes == w.audit.successes)
  {
    StoreCounts(w, now, jitter, converted, outcome);
  }
}
