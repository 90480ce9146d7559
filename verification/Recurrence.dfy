/** How long a fingerprint stays suppressed, and what ends it. */
module Recurrence {
  import opened Basics
  import opened Records
  import opened Codex
  import opened Discovery
  import opened Transactions
  import opened Protocol
  import opened Invariant
  import opened Preservation
  import opened Theorems
  import opened Witnesses

  // The step writes a transaction that replaces the backoff of the account or takes it away.
  predicate Overwrites(w: World, a: Action, r: string) {
    && a.Thread? && a.op.Update? && a.op.outcome != Lost && !w.pc.Idle? && w.pc.job.item.ref == r
    && (w.pc.StoreSuccess? || w.pc.StoreFailure? || w.pc.StoreAmbiguous? || w.pc.StoreBump? || w.pc.StoreDeferral?)
  }

  predicate NeverOverwritten(w: World, run: seq<Action>, r: string)
    requires Legal(w, run)
  {
    run == [] || (NeverOverwritten(w, run[..|run| - 1], r) && !Overwrites(Exec(w, run[..|run| - 1]), run[|run| - 1], r))
  }

  lemma BackoffStep(w: World, a: Action, r: string)
    requires Inv(w) && Enabled(w, a) && !Overwrites(w, a, r)
    ensures GuardOf(Next(w, a).disk, r).backoff == GuardOf(w.disk, r).backoff
  {
    GuardStep(w, a, r);
  }

  lemma {:induction false} BackoffRun(w: World, run: seq<Action>, r: string)
    requires Inv(w) && Legal(w, run) && NeverOverwritten(w, run, r)
    ensures GuardOf(Exec(w, run).disk, r).backoff == GuardOf(w.disk, r).backoff
  {
    if run != [] {
      var front := run[..|run| - 1];
      BackoffRun(w, front, r);
      RunInv(w, front);
      BackoffStep(Exec(w, front), run[|run| - 1], r);
    }
  }

  // Until the backoff on record is overwritten, no attempt begins under its fingerprint.
  lemma SuppressionLasts(w: World, more: seq<Action>, a: Action, r: string)
    requires Reached(w) && GuardOf(w.disk, r).backoff.Some?
    requires Legal(w, more) && NeverOverwritten(w, more, r)
    requires Enabled(Exec(w, more), a) && Starts(Exec(w, more), Next(Exec(w, more), a), r)
    ensures GuardOf(Next(Exec(w, more), a).disk, r).pending.value.fingerprint != GuardOf(w.disk, r).backoff.value.fingerprint
  {
    Reachable(w);
    RunInv(w, more);
    BackoffRun(w, more, r);
    StartsAtStoreAttempt(Exec(w, more), a, r);
  }

  // ------------------------------------------- a fingerprint comes back

  // No attempt is pending, and the failure on record has the fingerprint `f`.
  predicate Failed(w: World, r: string, f: string) {
    && ValidConfig(w.cfg) && w.pc.Idle? && w.active && w.since <= w.clock && "c" !in w.server.redeemed
    && r in w.disk.accounts && w.disk.accounts[r].profile.participating && w.disk.management.None?
    && var g := GuardOf(w.disk, r);
       && g.pending.None? && g.localClear.None? && g.cooldown.None? && g.tombstones == map[]
       && g.backoff.Some? && g.backoff.value.fingerprint == f
  }

  lemma Refused(w: World, u: World, r: string) returns (run: seq<Action>)
    requires Sends(w, u, r, "k") && ValidConfig(w.cfg) && "c" !in u.server.redeemed && "k" !in u.server.byKey
    ensures Legal(u, run) && Failed(Exec(u, run), r, Print(r)) && Exec(u, run).audit.issued == u.audit.issued
  {
    var reply, store := Thread(u.clock, Consume(false, Ok(NothingToReset))), Thread(u.clock, Update(0, 0, Committed));
    Extend(u, [], reply);
    Extend(u, [] + [reply], store);
    run := [] + [reply] + [store];
  }

  // When its backoff is over, the account is visited and its credits cannot be listed.
  lemma Relisted(w: World, r: string, f: string) returns (run: seq<Action>)
    requires Failed(w, r, f)
    ensures Legal(w, run)
    ensures var v := Exec(w, run);
            && v == w.(clock := v.clock, since := v.clock, pc := v.pc)
            && v.pc.StoreDeferral? && v.pc == StoreDeferral(v.pc.job, "credit_list_failed", SILENT) && v.pc.job.item == Owner(r)
  {
    var t := Max(w.clock, BackoffUntil(GuardOf(w.disk, r).backoff));
    var tick, load := Tick(t), Thread(t, Load(Owner(r), "manual", true));
    var usage, list := Thread(t, GetUsage(Err(SILENT))), Thread(t, GetCredits(Err(SILENT)));
    Extend(w, [], tick);
    Extend(w, [] + [tick], load);
    Extend(w, [] + [tick] + [load], usage);
    Extend(w, [] + [tick] + [load] + [usage], list);
    run := [] + [tick] + [load] + [usage] + [list];
  }

  lemma Deferred(w: World, r: string, f: string) returns (run: seq<Action>)
    requires Failed(w, r, f)
    ensures Legal(w, run) && Failed(Exec(w, run), r, "") && Exec(w, run).audit.issued == w.audit.issued
  {
    run := Relisted(w, r, f);
    var store := Thread(Exec(w, run).clock, Update(0, 0, Committed));
    Extend(w, run, store);
    run := run + [store];
  }

  lemma Reopened(w: World, r: string, key: string) returns (run: seq<Action>)
    requires Failed(w, r, "") && key !in w.audit.issued
    ensures Legal(w, run) && Open(Exec(w, run), r, key) && Exec(w, run).pc.Idle?
  {
    var tick := Tick(Max(w.clock, BackoffUntil(GuardOf(w.disk, r).backoff)));
    Extend(w, [], tick);
    run := [] + [tick];
    assert |Print(r)| > 0;
  }

  // From the empty state a run refuses an attempt and so suppresses its fingerprint; then one listing fails, and
  // an attempt with the very same fingerprint begins.
  lemma SuppressedThenTried(start: World, r: string) returns (run: seq<Action>, more: seq<Action>)
    requires Initial(start) && start.active && "c" !in start.server.redeemed
    ensures Legal(start, run) && Reached(Exec(start, run)) && Failed(Exec(start, run), r, Print(r))
    ensures Legal(Exec(start, run), more)
    ensures var p := GuardOf(Exec(Exec(start, run), more).disk, r).pending; p.Some? && p.value.fingerprint == Print(r)
  {
    run := SendingReachable(start, r);
    FixedConfig(start, run);
    var w := Exec(start, run);
    var rest := Refused(start, w, r);
    Concat(start, run, rest);
    run := run + rest;
    EndOfRun(start, run);
    w := Exec(start, run);
    more := Deferred(w, r, Print(r));
    rest := Reopened(Exec(w, more), r, "l");
    Concat(w, more, rest);
    more := more + rest;
    rest := Attempted(Exec(w, more), r, "l");
    Concat(w, more, rest);
    more := more + rest;
  }
}
