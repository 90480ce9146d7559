/** How often a local clear is retried, and when: the delay of its retries leaves its domain. */
module ClearRetries {
  import opened Basics
  import opened Records
  import opened Codex
  import opened Discovery
  import opened Transactions
  import opened Protocol
  import opened Invariant
  import opened Preservation
  import opened Theorems
  import opened Witnesses
  import Backoff

  // The retry that a failed local clear is given lies where it should, on every platform, if and only if no more
  // than twenty-seven attempts have failed before.
  lemma RetryExactIff(w: World, now: Time)
    requires w.pc.StoreUncleared?
    ensures (forall converted | Backoff.IsInt64(converted) ::
               TxOf(w.pc, w.cfg, now, 0, converted).next
               == w.pc.now + Min(MINUTE * Backoff.Pow2(w.pc.clear.attempts), Backoff.LONGEST_CLEAR_RETRY))
            <==> w.pc.clear.attempts <= 27
  {
    var level := w.pc.clear.attempts + 1;
    Backoff.DurationExact(level, MINUTE, Backoff.LONGEST_CLEAR_RETRY, 0);
    Backoff.ClearRetryDomain(level);
    assert Backoff.Product(level, MINUTE) == MINUTE * Backoff.Pow2(w.pc.clear.attempts);
    forall converted
      ensures TxOf(w.pc, w.cfg, now, 0, converted).next
              == w.pc.now + Backoff.Duration(level, MINUTE, Backoff.LONGEST_CLEAR_RETRY, 0, converted)
    {
    }
  }

  // An account that owes a local clear and is visited by nobody.
  ghost predicate Owing(w: World, r: string) {
    && Inv(w) && w.pc.Idle? && r in w.disk.accounts && w.disk.accounts[r].profile.participating
    && w.disk.management.None? && GuardOf(w.disk, r).localClear.Some?
  }

  lemma ClearAsked(w: World, r: string) returns (run: seq<Action>)
    requires Owing(w, r)
    ensures Legal(w, run)
    ensures var v := Exec(w, run);
            && v == w.(clock := v.clock, since := v.clock, pc := v.pc)
            && v.pc.ClearQuota? && v.pc == ClearQuota(v.pc.job, GuardOf(w.disk, r).localClear.value) && v.pc.job.item == Owner(r)
            && GuardOf(w.disk, r).localClear.value.nextRetryAt <= v.clock
  {
    var t := Max(w.clock, GuardOf(w.disk, r).localClear.value.nextRetryAt);
    Extend(w, [], Tick(t));
    Extend(w, [] + [Tick(t)], Thread(t, Load(Owner(r), "manual", true)));
    Extend(w, [] + [Tick(t)] + [Thread(t, Load(Owner(r), "manual", true))], Thread(t, GetUsage(Err(SILENT))));
    run := [] + [Tick(t)] + [Thread(t, Load(Owner(r), "manual", true))] + [Thread(t, GetUsage(Err(SILENT)))];
  }

  lemma FailureStored(u: World, r: string, converted: Time)
    requires u.pc.StoreUncleared? && u.pc.job.item == Owner(r) && u.since == u.clock && !u.pc.auth && r in u.disk.accounts
    ensures var store := Thread(u.clock, Update(0, converted, Committed)); var c := u.pc.clear;
            && Enabled(u, store)
            && var v := Next(u, store);
               && v.pc.Idle? && v.clock == u.clock && r in v.disk.accounts
               && v.disk.accounts[r].profile == u.disk.accounts[r].profile && v.disk.management == u.disk.management
               && GuardOf(v.disk, r).localClear == Some(LocalClear(c.authIndex, c.createdAt,
                    u.pc.now + Backoff.Duration(c.attempts + 1, MINUTE, Backoff.LONGEST_CLEAR_RETRY, 0, converted),
                    c.attempts + 1))
  {
  }

  // One more local clear fails; `converted` is what the platform makes of an overflow.
  lemma FailOnce(w: World, r: string, converted: Time) returns (run: seq<Action>)
    requires Owing(w, r)
    ensures Legal(w, run) && Owing(Exec(w, run), r)
    ensures var v := Exec(w, run);
            var c, d := GuardOf(w.disk, r).localClear.value, GuardOf(v.disk, r).localClear.value;
            && d.attempts == c.attempts + 1 && d.authIndex == c.authIndex && d.createdAt == c.createdAt
            && d.nextRetryAt == v.clock + Backoff.Duration(d.attempts, MINUTE, Backoff.LONGEST_CLEAR_RETRY, 0, converted)
  {
    run := ClearAsked(w, r);
    var t := Exec(w, run).clock;
    var fail, store := Thread(t, ResetQuota(ClearFailed)), Thread(t, Update(0, converted, Committed));
    Extend(w, run, fail);
    FailureStored(Exec(w, run + [fail]), r, converted);
    Extend(w, run + [fail], store);
    run := run + [fail] + [store];
    RunInv(w, run);
  }

  // Nothing caps the counter of failed local clears.
  lemma {:induction false} ClearFailuresUnbounded(w: World, r: string, n: nat) returns (run: seq<Action>)
    requires Owing(w, r)
    ensures Legal(w, run) && Owing(Exec(w, run), r)
    ensures GuardOf(Exec(w, run).disk, r).localClear.value.attempts == GuardOf(w.disk, r).localClear.value.attempts + n
  {
    if n == 0 {
      run := [];
    } else {
      var front := ClearFailuresUnbounded(w, r, n - 1);
      var last := FailOnce(Exec(w, front), r, 0);
      Concat(w, front, last);
      run := front + last;
    }
  }

  // From any account that owes a clear there is a run that puts its retry into the past.
  lemma RetryInThePast(w: World, r: string) returns (run: seq<Action>)
    requires Owing(w, r)
    ensures Legal(w, run) && Owing(Exec(w, run), r)
    ensures GuardOf(Exec(w, run).disk, r).localClear.value.nextRetryAt < Exec(w, run).clock
  {
    run := ClearFailuresUnbounded(w, r, 28);
    var last := FailOnce(Exec(w, run), r, -Backoff.INT64_LIMIT);
    Concat(w, run, last);
    Backoff.ClearRetryDomain(GuardOf(Exec(w, run + last).disk, r).localClear.value.attempts);
    run := run + last;
  }

  // Such accounts are reached from the empty state: by a success, and a crash before its clear.
  lemma OwingReachable(start: World, r: string) returns (run: seq<Action>)
    requires Initial(start) && start.active && "c" !in start.server.redeemed
    ensures Legal(start, run) && Reached(Exec(start, run)) && Owing(Exec(start, run), r)
  {
    run := WaitingReachable(start, r);
    var rest := SuccessWithoutRedemption(Exec(start, run), r);
    Concat(start, run, rest);
    run := run + rest;
    Extend(start, run, Restart);
    run := run + [Restart];
    EndOfRun(start, run);
  }
}
