/** Runs that exist: they show which stronger laws the protocol does not satisfy. */
module Witnesses {
  import opened Basics
  import opened Records
  import opened Codex
  import opened Discovery
  import opened Transactions
  import opened Protocol
  import opened Invariant
  import opened Preservation
  import opened Theorems
  import opened Resolution
  import Fingerprint

  lemma Extend(w: World, run: seq<Action>, a: Action)
    requires Legal(w, run) && Enabled(Exec(w, run), a)
    ensures Legal(w, run + [a]) && Exec(w, run + [a]) == Next(Exec(w, run), a)
  {
    assert (run + [a])[..|run|] == run;
  }

  lemma {:induction false} Concat(w: World, run: seq<Action>, more: seq<Action>)
    requires Legal(w, run) && Legal(Exec(w, run), more)
    ensures Legal(w, run + more) && Exec(w, run + more) == Exec(Exec(w, run), more)
  {
    if more == [] {
      assert run + more == run;
    } else {
      var front := more[..|more| - 1];
      Concat(w, run, front);
      Extend(w, run + front, more[|more| - 1]);
      assert run + front + [more[|more| - 1]] == run + more;
    }
  }

  // What is reached stays reached.
  lemma ReachedOn(w: World, run: seq<Action>)
    requires Reached(w) && Legal(w, run)
    ensures Reached(Exec(w, run))
  {
    var start, before :| Initial(start) && Legal(start, before) && Exec(start, before) == w;
    Concat(start, before, run);
    EndOfRun(start, before + run);
  }

  const SILENT: Failure := Failure(None)

  function Owner(r: string): Account {
    Account(r, "auth", "index", r, "token", "name", "", "", false)
  }

  // An unclear attempt waits on disk and nothing but its backoff keeps the engine from visiting it.
  ghost predicate Waiting(w: World, r: string) {
    && Inv(w) && w.pc.Idle? && r in w.disk.accounts && w.disk.accounts[r].profile.participating
    && w.disk.management.None? && GuardOf(w.disk, r).pending.Some?
  }

  // The first steps of a visit to a waiting attempt.
  lemma Visit(w: World, r: string) returns (run: seq<Action>)
    requires Waiting(w, r)
    ensures Legal(w, run) && |run| == 3
    ensures var v := Exec(w, run);
            && v == w.(clock := v.clock, since := v.clock, pc := v.pc)
            && v.pc.VerifyCredits? && v.pc.attempt == GuardOf(w.disk, r).pending.value && v.pc.job.item == Owner(r)
  {
    var g := GuardOf(w.disk, r);
    assert AccountInv(w, r);
    var t := Max(w.clock, BackoffUntil(g.backoff));
    Extend(w, [], Tick(t));
    Extend(w, [] + [Tick(t)], Thread(t, Load(Owner(r), "manual", true)));
    Extend(w, [] + [Tick(t)] + [Thread(t, Load(Owner(r), "manual", true))], Thread(t, GetUsage(Err(SILENT))));
    run := [] + [Tick(t)] + [Thread(t, Load(Owner(r), "manual", true))] + [Thread(t, GetUsage(Err(SILENT)))];
  }

  // Storing a raised count leaves the account waiting.
  lemma BumpStored(u: World, r: string)
    requires u.pc.StoreBump? && u.pc.job.item == Owner(r) && u.since == u.clock && r in u.disk.accounts
    requires GuardOf(u.disk, r).pending == Some(u.pc.attempt)
    ensures var store := Thread(u.clock, Update(0, 0, Committed));
            && Enabled(u, store)
            && var v := Next(u, store);
               && v.pc.Idle? && r in v.disk.accounts && v.disk.accounts[r].profile == u.disk.accounts[r].profile
               && v.disk.management == u.disk.management && GuardOf(v.disk, r).pending == Some(Tried(u.pc.attempt))
  {
  }

  lemma BumpOnce(w: World, r: string) returns (run: seq<Action>)
    requires Waiting(w, r)
    ensures Legal(w, run) && Waiting(Exec(w, run), r)
    ensures GuardOf(Exec(w, run).disk, r).pending == Some(Tried(GuardOf(w.disk, r).pending.value))
  {
    run := Visit(w, r);
    var v := Exec(w, run);
    var fail, store := Thread(v.clock, GetCredits(Err(SILENT))), Thread(v.clock, Update(0, 0, Committed));
    Extend(w, run, fail);
    BumpStored(Exec(w, run + [fail]), r);
    Extend(w, run + [fail], store);
    run := run + [fail] + [store];
    RunInv(w, run);
  }

  // The verification count has no bound: reads that keep failing raise it for ever, since it is
  // raised before the limit is looked at.
  lemma {:induction false} VerificationUnbounded(w: World, r: string, n: nat) returns (run: seq<Action>)
    requires Waiting(w, r)
    ensures Legal(w, run) && Waiting(Exec(w, run), r)
    ensures GuardOf(Exec(w, run).disk, r).pending.value.key == GuardOf(w.disk, r).pending.value.key
    ensures GuardOf(Exec(w, run).disk, r).pending.value.verificationCount
            == GuardOf(w.disk, r).pending.value.verificationCount + n
  {
    if n == 0 {
      run := [];
    } else {
      var front := VerificationUnbounded(w, r, n - 1);
      var last := BumpOnce(Exec(w, front), r);
      Concat(w, front, last);
      run := front + last;
    }
  }

  // A reply from the last place of an attempt: its success is stored, and its local clear is owed.
  lemma SuccessStored(u: World, r: string)
    requires u.pc.StoreSuccess? && u.pc.job.item == Owner(r) && u.since == u.clock && r in u.disk.accounts
    requires GuardOf(u.disk, r).pending == Some(u.pc.attempt)
    ensures var store := Thread(u.clock, Update(0, 0, Committed));
            && Enabled(u, store)
            && var v := Next(u, store);
               && u.pc.attempt.key in v.audit.successes && v.server == u.server && GuardOf(v.disk, r).pending.None?
               && GuardOf(v.disk, r).localClear.Some? && v.disk.management == u.disk.management
               && r in v.disk.accounts && v.disk.accounts[r].profile == u.disk.accounts[r].profile
  {
  }

  // A usage reading that blocks nothing.
  const FREE := Usage(true, false, 0.0, None, None, 0)

  const NOTHING := CreditList(0, [])

  // The thread has its answer and reads once more before it stores the success.
  lemma Confirmed(u: World, r: string) returns (run: seq<Action>)
    requires u.pc.ConfirmCredits? && u.pc.job.item == Owner(r) && u.since == u.clock && r in u.disk.accounts
    requires GuardOf(u.disk, r).pending == Some(u.pc.attempt)
    ensures Legal(u, run) && AllUndisturbed(run) && forall a | a in run :: Answered(a)
    ensures var v := Exec(u, run);
            && u.pc.attempt.key in v.audit.successes && v.server == u.server && GuardOf(v.disk, r).pending.None?
            && GuardOf(v.disk, r).localClear.Some? && v.disk.management == u.disk.management
            && r in v.disk.accounts && v.disk.accounts[r].profile == u.disk.accounts[r].profile
  {
    var t := u.clock;
    var list, usage, store := Thread(t, GetCredits(Ok(NOTHING))), Thread(t, GetUsage(Ok(FREE))), Thread(t, Update(0, 0, Committed));
    Extend(u, [], list);
    Extend(u, [] + [list], usage);
    run := [] + [list] + [usage];
    SuccessStored(Exec(u, run), r);
    Extend(u, run, store);
    run := run + [store];
  }

  // "Closed as a success" does not mean "redeemed", first cause: a credit that left the listing for any other
  // reason, such as expiry, closes its attempt as a success although its key never redeemed anything.
  lemma SuccessWithoutRedemption(w: World, r: string) returns (run: seq<Action>)
    requires Waiting(w, r) && GuardOf(w.disk, r).pending.value.key !in w.server.byKey
    ensures Legal(w, run)
    ensures var v := Exec(w, run); var k := GuardOf(w.disk, r).pending.value.key;
            && k in v.audit.successes && k !in v.server.byKey && GuardOf(v.disk, r).pending.None?
            && GuardOf(v.disk, r).localClear.Some? && v.disk.management.None?
            && r in v.disk.accounts && v.disk.accounts[r].profile.participating
  {
    run := Visit(w, r);
    var t := Exec(w, run).clock;
    var list, usage := Thread(t, GetCredits(Ok(NOTHING))), Thread(t, GetUsage(Ok(FREE)));
    Extend(w, run, list);
    Extend(w, run + [list], usage);
    run := run + [list] + [usage];
    var rest := Confirmed(Exec(w, run), r);
    Concat(w, run, rest);
    run := run + rest;
  }

  // Second cause: the service answers that it has reset the account although it has not.
  lemma SuccessByFalseReply(u: World, r: string) returns (run: seq<Action>)
    requires Sending(u, r) && u.pc.attempt.key !in u.server.byKey
    ensures Legal(u, run) && AllUndisturbed(run) && forall a | a in run :: Answered(a)
    ensures u.pc.attempt.key in Exec(u, run).audit.successes && u.pc.attempt.key !in Exec(u, run).server.byKey
  {
    var reply := Thread(u.clock, Consume(false, Ok(Reset)));
    Extend(u, [], reply);
    var rest := Confirmed(Exec(u, [] + [reply]), r);
    Concat(u, [] + [reply], rest);
    run := [] + [reply] + rest;
  }

  // ------------------------------------------------------- how an attempt begins

  // All is used, but nothing is blocked yet.
  const EXHAUSTED := Usage(true, false, 100.0, Some(Window(100.0, 1)), None, 1)

  const OFFERED := Hash("credit", "c")

  function Offer(t: Time): CreditList {
    CreditList(1, [Credit("c", OFFERED, t + 2 * HOUR)])
  }

  // The fingerprint of every attempt below.
  function Print(r: string): string {
    Fingerprint.Of(r, OFFERED, EXHAUSTED, 1)
  }

  // Nothing keeps the engine from a new attempt with the offered credit and the key `key`.
  predicate Open(u: World, r: string, key: string) {
    && ValidConfig(u.cfg) && u.since <= u.clock && u.active && "c" !in u.server.redeemed && key !in u.audit.issued
    && r in u.disk.accounts && u.disk.accounts[r].profile.participating && u.disk.management.None?
    && Unguarded(GuardOf(u.disk, r), r, u.clock)
  }

  predicate Unguarded(g: Guard, r: string, now: Time) {
    && g.pending.None? && g.localClear.None? && g.cooldown.None? && g.tombstones == map[]
    && (g.backoff.Some? ==> g.backoff.value.until <= now && g.backoff.value.fingerprint != Print(r))
  }

  // The thread visits the account and has just made its latest step.
  predicate At(u: World, r: string) {
    && !u.pc.Idle? && u.pc.job.item == Owner(r) && u.pc.job.now == u.clock && u.since == u.clock
    && u.pc.job.snap.guard == GuardOf(u.disk, r)
    && u.pc.job.snap.profile.participating && u.pc.job.management.None?
  }

  // From `w` on only the thread has moved, and the key is still unused.
  predicate Onward(w: World, u: World, r: string, key: string) {
    Open(u, r, key) && At(u, r) && u.clock == w.clock && u.server == w.server && u.audit.issued == w.audit.issued
  }

  // Where the thread looks for the offered credit.
  predicate Searches(pc: Pc, t: Time) {
    match pc
    case StoreUsage(_, usage) => usage == EXHAUSTED
    case AskCredits(_, reply) => reply == Ok(EXHAUSTED)
    case StoreCredits(_, reply, list) => reply == Ok(EXHAUSTED) && list == Offer(t)
    case NoteCredit(_, reply, credit) => reply == Ok(EXHAUSTED) && credit == Offer(t).available[0]
    case Recheck(_, usage, credit) => usage == EXHAUSTED && credit == Offer(t).available[0]
    case _ => false
  }

  lemma Asked(w: World, r: string, key: string) returns (run: seq<Action>)
    requires Open(w, r, key) && w.pc.Idle?
    ensures Legal(w, run) && Onward(w, Exec(w, run), r, key)
    ensures Searches(Exec(w, run).pc, w.clock) && Exec(w, run).pc.StoreUsage?
  {
    var load, usage := Thread(w.clock, Load(Owner(r), "manual", true)), Thread(w.clock, GetUsage(Ok(EXHAUSTED)));
    Extend(w, [], load);
    Extend(w, [] + [load], usage);
    run := [] + [load] + [usage];
  }

  lemma Wrote(w: World, u: World, r: string, key: string)
    requires Onward(w, u, r, key) && Searches(u.pc, u.clock) && AtStore(u.pc)
    ensures var a := Thread(u.clock, Update(0, 0, Committed));
            && Enabled(u, a) && Onward(w, Next(u, a), r, key) && Searches(Next(u, a).pc, u.clock)
            && (u.pc.StoreUsage? ==> Next(u, a).pc.AskCredits?)
            && (u.pc.StoreCredits? ==> Next(u, a).pc.NoteCredit?)
            && (u.pc.NoteCredit? ==> Next(u, a).pc.Recheck?)
  {
  }

  lemma Listed(w: World, u: World, r: string, key: string)
    requires Onward(w, u, r, key) && Searches(u.pc, u.clock) && (u.pc.AskCredits? || u.pc.Recheck?)
    ensures var a := Thread(u.clock, GetCredits(Ok(Offer(u.clock))));
            && Enabled(u, a) && Onward(w, Next(u, a), r, key)
            && (u.pc.AskCredits? ==> Next(u, a).pc.StoreCredits? && Searches(Next(u, a).pc, u.clock))
            && (u.pc.Recheck? ==> Next(u, a).pc == Decide(u.pc.job, EXHAUSTED, Offer(u.clock).available[0], 1))
  {
  }

  // The thread has its attempt on disk and is about to send it.
  predicate Sending(u: World, r: string) {
    && u.pc.Spend? && u.pc.job.item == Owner(r) && u.since == u.clock
    && r in u.disk.accounts && u.disk.accounts[r].profile.participating && u.disk.management.None?
    && GuardOf(u.disk, r).pending == Some(u.pc.attempt)
  }

  // ... and the attempt is the one with the key `key`; only the thread has moved since `w`.
  predicate Sends(w: World, u: World, r: string, key: string) {
    && Sending(u, r) && u.active && u.clock == w.clock && u.server == w.server && u.cfg == w.cfg
    && u.audit.issued.Keys == w.audit.issued.Keys + {key} && u.pc.attempt.key == key
    && u.pc.attempt.fingerprint == Print(r) && u.pc.attempt.verificationCount == 0
    && GuardOf(u.disk, r).localClear.None? && GuardOf(u.disk, r).cooldown.None? && GuardOf(u.disk, r).tombstones == map[]
  }

  lemma AttemptStored(u: World, r: string)
    requires u.pc.StoreAttempt? && u.pc.job.item == Owner(r) && u.since == u.clock && u.active
    requires r in u.disk.accounts && u.disk.accounts[r].profile.participating
    requires GuardOf(u.disk, r).pending.None? && GuardOf(u.disk, r).cooldown.None?
    ensures var store := Thread(u.clock, Update(0, 0, Committed));
            && Enabled(u, store)
            && var v := Next(u, store);
               && v == u.(disk := v.disk, pc := Spend(u.pc.job, u.pc.attempt), audit := v.audit)
               && v.audit.issued == u.audit.issued && v.disk.management == u.disk.management && r in v.disk.accounts
               && v.disk.accounts[r].profile == u.disk.accounts[r].profile
               && GuardOf(v.disk, r) == GuardOf(u.disk, r).(pending := Some(u.pc.attempt))
  {
  }

  lemma Began(w: World, u: World, r: string, key: string) returns (run: seq<Action>)
    requires Onward(w, u, r, key) && u.cfg == w.cfg && u.pc == Decide(u.pc.job, EXHAUSTED, Offer(u.clock).available[0], 1)
    ensures Legal(u, run) && Sends(w, Exec(u, run), r, key)
  {
    var check, store := Thread(u.clock, Check(true, Some(key))), Thread(u.clock, Update(0, 0, Committed));
    Extend(u, [], check);
    AttemptStored(Exec(u, [] + [check]), r);
    Extend(u, [] + [check], store);
    run := [] + [check] + [store];
  }

  // A visit from its first step to the Consume call.
  lemma Attempted(w: World, r: string, key: string) returns (run: seq<Action>)
    requires Open(w, r, key) && w.pc.Idle?
    ensures Legal(w, run) && Sends(w, Exec(w, run), r, key)
  {
    var store, list := Thread(w.clock, Update(0, 0, Committed)), Thread(w.clock, GetCredits(Ok(Offer(w.clock))));
    run := Asked(w, r, key);
    Wrote(w, Exec(w, run), r, key);
    Extend(w, run, store);
    run := run + [store];
    Listed(w, Exec(w, run), r, key);
    Extend(w, run, list);
    run := run + [list];
    Wrote(w, Exec(w, run), r, key);
    Extend(w, run, store);
    run := run + [store];
    Wrote(w, Exec(w, run), r, key);
    Extend(w, run, store);
    run := run + [store];
    Listed(w, Exec(w, run), r, key);
    Extend(w, run, list);
    run := run + [list];
    FixedConfig(w, run);
    var rest := Began(w, Exec(w, run), r, key);
    Concat(w, run, rest);
    run := run + rest;
  }

  lemma Discovered(start: World, r: string, key: string) returns (run: seq<Action>)
    requires Initial(start) && start.active && "c" !in start.server.redeemed
    ensures Legal(start, run) && Open(Exec(start, run), r, key) && Exec(start, run).pc.Idle?
    ensures var v := Exec(start, run);
            v.clock == start.clock && v.cfg == start.cfg && v.server == start.server && v.audit.issued == map[]
  {
    var t := start.clock;
    var found, none := [Owner(r)], MarkAbsent(start.disk.accounts);
    assert found[..0] == [] && SeenAll(none, [], true, t) == none;
    assert SeenAll(none, found, true, t) == Seen(none, Owner(r), true, t);
    Extend(start, [], Edit(Reconcile([Owner(r)], true, t), Committed));
    run := [] + [Edit(Reconcile([Owner(r)], true, t), Committed)];
  }

  // From the empty state: the account is discovered and found exhausted, an attempt for a credit is put on disk,
  // and nothing has been redeemed yet.
  lemma SendingReachable(start: World, r: string) returns (run: seq<Action>)
    requires Initial(start) && start.active && "c" !in start.server.redeemed
    ensures Legal(start, run) && Reached(Exec(start, run)) && Sends(start, Exec(start, run), r, "k")
    ensures Exec(start, run).audit.issued.Keys == {"k"}
  {
    run := Discovered(start, r, "k");
    var rest := Attempted(Exec(start, run), r, "k");
    Concat(start, run, rest);
    run := run + rest;
    EndOfRun(start, run);
  }

  // A crash before the call leaves the attempt waiting.
  lemma WaitingReachable(start: World, r: string) returns (run: seq<Action>)
    requires Initial(start) && start.active && "c" !in start.server.redeemed
    ensures Legal(start, run) && Reached(Exec(start, run)) && Waiting(Exec(start, run), r)
    ensures GuardOf(Exec(start, run).disk, r).pending.value.key !in Exec(start, run).server.byKey
  {
    run := SendingReachable(start, r);
    Extend(start, run, Restart);
    run := run + [Restart];
    EndOfRun(start, run);
  }
}
