/** Every change the program makes to its persisted state, as a function on states.

    The closures given to `Store.Update` appear as values of `Tx`: those of
    `internal/reset/engine.go` and of `internal/state/participation.go`. */
module Transactions {
  import opened Basics
  import opened Records
  import opened Codex
  import opened Discovery

  const MANAGEMENT_AUTH_COOLDOWN: Time := 10 * MINUTE

  datatype Tx =
    | SaveUsage(ref: string, usage: Usage, now: Time)
    | SaveCredits(ref: string, list: CreditList, now: Time)
    | Note(entry: LogEntry)
    | Persist(ref: string, trigger: string, attempt: Attempt, now: Time)
    | Succeed(ref: string, trigger: string, authIndex: string, attempt: Attempt, outcome: string, now: Time, until: Time)
    | Postpone(ref: string, trigger: string, attempt: Attempt, now: Time, until: Time)
    | Bump(ref: string, attempt: Attempt, reason: string, until: Time)
    | Fail(ref: string, trigger: string, fingerprint: string, outcome: string, tombstone: bool, creditId: string,
           now: Time, until: Time)
    | Defer(ref: string, trigger: string, code: string, now: Time, until: Time)
    | Cleared(ref: string, trigger: string, now: Time)
    | Uncleared(ref: string, trigger: string, clear: LocalClear, now: Time, next: Time, auth: bool)
    | Finish(summary: ScanSummary)
    | Reconcile(found: seq<Account>, participating: bool, now: Time)
    | Participate(refs: set<string>, participating: bool, now: Time)

  // Transactions that do not belong to the processing of one account.
  predicate IsEdit(tx: Tx) {
    tx.Note? || tx.Finish? || tx.Reconcile? || tx.Participate?
  }

  predicate Holds(g: Guard, key: string) {
    g.pending.Some? && g.pending.value.key == key
  }

  predicate Running(until: Time, now: Time) {
    until > now
  }

  predicate Cooling(g: Guard, now: Time) {
    g.cooldown.Some? && Running(g.cooldown.value.until, now)
  }

  predicate BackingOff(g: Guard, now: Time) {
    g.backoff.Some? && Running(g.backoff.value.until, now)
  }

  // The error a transaction's closure returns, if any. `active` is the engine's flag.
  function Refusal(tx: Tx, s: State, active: bool): Option<string> {
    match tx
    case Persist(ref, _, _, now) =>
      if !active then Some("reset engine is inactive")
      else if ref !in s.accounts || !s.accounts[ref].profile.participating then Some("account no longer participates")
      else if s.accounts[ref].guard.pending.Some? then Some("account already has a pending attempt")
      else if Cooling(s.accounts[ref].guard, now) then Some("account entered cooldown")
      else None
    case Succeed(ref, _, _, attempt, _, _, _) =>
      if ref in s.accounts && Holds(s.accounts[ref].guard, attempt.key) then None
      else Some("pending attempt changed")
    case _ => None
  }

  function Tried(a: Attempt): Attempt {
    a.(phase := "ambiguous", verificationCount := a.verificationCount + 1)
  }

  function GuardEffect(tx: Tx, g: Guard): Guard {
    match tx
    case Persist(_, _, attempt, _) => g.(pending := Some(attempt))
    case Succeed(_, _, authIndex, _, outcome, now, until) =>
      Guard(None, g.tombstones, Some(Cooldown(until, outcome)), None, Some(LocalClear(authIndex, now, now, 0)))
    case Postpone(_, _, attempt, _, until) =>
      if !Holds(g, attempt.key) then g else Retried(g, attempt, until, "ambiguous")
    case Bump(_, attempt, reason, until) =>
      if !Holds(g, attempt.key) then g else Retried(g, attempt, until, reason)
    case Fail(_, _, fingerprint, outcome, tombstone, creditId, now, until) =>
      g.(pending := None,
      backoff := Some(Backoff(until, fingerprint, 1, outcome)),
      tombstones := if tombstone && creditId != "" then g.tombstones[Hash("ref", creditId) := now] else g.tombstones)
    case Defer(_, _, code, _, until) => g.(backoff := Some(Backoff(until, "", 1, code)))
    case Cleared(_, _, _) => g.(localClear := None)
    case Uncleared(_, _, clear, _, next, _) =>
      g.(localClear := Some(LocalClear(clear.authIndex, clear.createdAt, next, clear.attempts + 1)))
    case _ => g
  }

  function Retried(g: Guard, attempt: Attempt, until: Time, reason: string): Guard
    requires g.pending.Some?
  {
    var tried := Tried(g.pending.value);
    g.(pending := Some(tried), backoff := Some(Backoff(until, attempt.fingerprint, tried.verificationCount, reason)))
  }

  function ReportEffect(tx: Tx, a: AccountState): Report {
    var r := a.report;
    match tx
    case SaveUsage(_, usage, now) =>
      r.(usedPercent := usage.usedPercent, blocked := usage.blocked, lastScannedAt := now, lastErrorCode := "")
    case SaveCredits(_, list, now) =>
      r.(availableCredits := |list.available|,
      earliestExpiresAt := if list.available == [] then ZERO_TIME else list.available[0].expiresAt,
      lastScannedAt := now, lastErrorCode := "")
    case Succeed(_, _, _, attempt, outcome, _, _) =>
      r.(lastFingerprint := attempt.fingerprint, lastResult := outcome, lastErrorCode := "")
    case Bump(_, attempt, reason, _) => if Holds(a.guard, attempt.key) then r.(lastResult := reason) else r
    case Fail(_, _, fingerprint, outcome, _, _, _, _) =>
      r.(lastFingerprint := fingerprint, lastResult := outcome, lastErrorCode := outcome)
    case Defer(_, _, code, _, _) => r.(lastErrorCode := code)
    case _ => r
  }

  // The account a transaction is about.
  function Subject(tx: Tx): Option<string> {
    if IsEdit(tx) then None else Some(tx.ref)
  }

  function EventForSuccess(outcome: string): string {
    if "already_redeemed" <= outcome then "reset_already_redeemed" else "reset_succeeded"
  }

  // The entry a transaction appends to the log of the state it is applied to.
  function Entry(tx: Tx, s: State): Option<LogEntry> {
    match tx
    case Note(entry) => Some(entry)
    case Finish(sum) =>
      Some(LogEntry(sum.finishedAt, "scan_completed", trigger := sum.trigger,
                    durationMs := Milliseconds(sum.finishedAt - sum.startedAt), errorCode := sum.error))
    case Persist(ref, trigger, attempt, now) =>
      Some(LogEntry(now, "reset_attempt_started", trigger := trigger, accountRef := ref, participating := true,
                    creditRef := attempt.creditRef, decision := "consume", attemptIdRef := attempt.AttemptIdRef()))
    case Succeed(ref, trigger, _, attempt, outcome, now, until) =>
      Some(LogEntry(now, EventForSuccess(outcome), trigger := trigger, accountRef := ref, participating := true,
                    creditRef := attempt.creditRef, outcome := outcome, attemptIdRef := attempt.AttemptIdRef(),
                    nextAttemptAt := until))
    case Postpone(ref, trigger, attempt, now, until) =>
      if !Holds(GuardOf(s, ref), attempt.key) then None
      else Some(LogEntry(now, "reset_ambiguous", trigger := trigger, accountRef := ref, participating := true,
                         creditRef := attempt.creditRef, outcome := "ambiguous",
                         attemptIdRef := attempt.AttemptIdRef(), nextAttemptAt := until,
                         errorCode := "consume_ambiguous"))
    case Fail(ref, trigger, _, outcome, _, _, now, until) =>
      if ref !in s.accounts then None
      else
        var p := s.accounts[ref].guard.pending;
        Some(LogEntry(now, "reset_deferred", trigger := trigger, accountRef := ref, participating := true,
                      creditRef := if p.Some? then p.value.creditRef else "", decision := "backoff",
                      outcome := outcome, attemptIdRef := if p.Some? then p.value.AttemptIdRef() else "",
                      nextAttemptAt := until, errorCode := outcome))
    case Defer(ref, trigger, code, now, until) =>
      if ref !in s.accounts then None
      else Some(LogEntry(now, "reset_deferred", trigger := trigger, accountRef := ref, participating := true,
                         decision := "transient_backoff", nextAttemptAt := until, errorCode := code))
    case Cleared(ref, trigger, now) =>
      if ref !in s.accounts then None
      else Some(LogEntry(now, "reset_succeeded", trigger := trigger, accountRef := ref, participating := true,
                         decision := "local_cooldown_cleared", outcome := s.accounts[ref].report.lastResult))
    case Uncleared(ref, trigger, _, now, next, _) =>
      if ref !in s.accounts then None
      else Some(LogEntry(now, "local_cooldown_clear_pending", trigger := trigger, accountRef := ref,
                         participating := true, decision := "retry", nextAttemptAt := next,
                         errorCode := "local_clear_failed"))
    case _ => None
  }

  // Go divides a duration towards zero.
  function Milliseconds(d: Time): int {
    if d < 0 then -(-d / 1_000_000) else d / 1_000_000
  }

  function MarkAbsent(accounts: map<string, AccountState>): map<string, AccountState> {
    map r | r in accounts :: accounts[r].(profile := accounts[r].profile.(present := Some(false)))
  }

  function Seen(accounts: map<string, AccountState>, d: Account, participating: bool, now: Time): map<string, AccountState> {
    var known :=
      if d.ref in accounts then accounts[d.ref]
      else AccountState(Profile(participating, now, ZERO_TIME, None, Display("", "", "", "")), BLANK, NO_REPORT);
    accounts[d.ref := known.(profile := known.profile.(present := Some(true), lastSeenAt := now,
                             display := Display(d.name, d.email, d.fileName, d.authId)))]
  }

  function SeenAll(accounts: map<string, AccountState>, found: seq<Account>, participating: bool, now: Time)
    : map<string, AccountState>
  {
    if found == [] then accounts
    else Seen(SeenAll(accounts, found[..|found| - 1], participating, now), found[|found| - 1], participating, now)
  }

  function Chosen(accounts: map<string, AccountState>, refs: set<string>, participating: bool, now: Time)
    : map<string, AccountState>
  {
    map r | r in accounts ::
      if r in refs && accounts[r].IsPresent()
      then accounts[r].(profile := accounts[r].profile.(participating := participating, participationSetAt := now))
      else accounts[r]
  }

  function AccountsEffect(tx: Tx, accounts: map<string, AccountState>): map<string, AccountState> {
    match tx
    case Reconcile(found, participating, now) => SeenAll(MarkAbsent(accounts), found, participating, now)
    case Participate(refs, participating, now) => Chosen(accounts, refs, participating, now)
    case Note(_) => accounts
    case Finish(_) => accounts
    case _ =>
      if tx.ref in accounts
      then accounts[tx.ref := accounts[tx.ref].(guard := GuardEffect(tx, accounts[tx.ref].guard),
                              report := ReportEffect(tx, accounts[tx.ref]))]
      else accounts
  }

  // A management rejection pauses the whole engine.
  function Rejection(tx: Tx, s: State): Option<Cooldown> {
    if tx.Uncleared? && tx.auth && tx.ref in s.accounts
    then Some(Cooldown(tx.now + MANAGEMENT_AUTH_COOLDOWN, "management_auth_failed")) else None
  }

  // The state a transaction leaves when it is not refused.
  function Apply(tx: Tx, s: State): State {
    var entry := Entry(tx, s);
    State(AccountsEffect(tx, s.accounts),
          if Rejection(tx, s).Some? then Rejection(tx, s) else s.management,
          if tx.Finish? then tx.summary else s.lastScan,
          if entry.Some? then AppendLog(s.logs, entry.value) else s.logs)
  }

  // Reconciliation keeps every account and every guard; new accounts start with a blank one.
  lemma {:induction false} SeenAllKeepsGuards(accounts: map<string, AccountState>, found: seq<Account>, participating: bool,
                                              now: Time, r: string)
    ensures r in accounts ==> r in SeenAll(accounts, found, participating, now)
    ensures r in SeenAll(accounts, found, participating, now) ==>
              SeenAll(accounts, found, participating, now)[r].guard == if r in accounts then accounts[r].guard else BLANK
    ensures r in SeenAll(accounts, found, participating, now) && r in accounts ==>
              SeenAll(accounts, found, participating, now)[r].profile.participating == accounts[r].profile.participating
              && SeenAll(accounts, found, participating, now)[r].report == accounts[r].report
  {
    if found != [] {
      SeenAllKeepsGuards(accounts, found[..|found| - 1], participating, now, r);
    }
  }

  // After a reconciliation exactly the discovered accounts are present.
  lemma {:induction false} PresentAfterReconcile(accounts: map<string, AccountState>, found: seq<Account>, participating: bool,
                                                 now: Time, r: string)
    ensures var after := SeenAll(MarkAbsent(accounts), found, participating, now);
            r in after && after[r].IsPresent() <==> exists a | a in found :: a.ref == r
  {
    if found != [] {
      var front, last := found[..|found| - 1], found[|found| - 1];
      assert found == front + [last];
      PresentAfterReconcile(accounts, front, participating, now, r);
      if last.ref == r {
        assert last in found;
      } else {
        assert forall a | a in front :: a in found;
      }
    }
  }

  // What a transaction does to the guard of any account.
  lemma GuardAfter(tx: Tx, s: State, r: string)
    ensures GuardOf(Apply(tx, s), r) ==
            if Subject(tx) == Some(r) && r in s.accounts then GuardEffect(tx, GuardOf(s, r)) else GuardOf(s, r)
    ensures r in s.accounts ==> r in Apply(tx, s).accounts
  {
    if tx.Reconcile? {
      SeenAllKeepsGuards(MarkAbsent(s.accounts), tx.found, tx.participating, tx.now, r);
    }
  }

  // Participation edits never touch what protects a reset: no account is dropped, no guard changes.
  lemma EditsKeepGuards(tx: Tx, s: State, r: string)
    requires IsEdit(tx)
    ensures GuardOf(Apply(tx, s), r) == GuardOf(s, r)
    ensures r in s.accounts ==> r in Apply(tx, s).accounts && Apply(tx, s).accounts[r].report == s.accounts[r].report
    ensures Apply(tx, s).management == s.management
  {
    GuardAfter(tx, s, r);
    if tx.Reconcile? {
      SeenAllKeepsGuards(MarkAbsent(s.accounts), tx.found, tx.participating, tx.now, r);
    }
  }

  // A transaction about one account leaves every other record as it was.
  lemma OthersUnchanged(tx: Tx, s: State, r: string)
    requires !IsEdit(tx) && r != tx.ref
    ensures r in s.accounts <==> r in Apply(tx, s).accounts
    ensures r in s.accounts ==> Apply(tx, s).accounts[r] == s.accounts[r]
  {
  }

  // Tombstones only grow, under every transaction.
  lemma TombstonesGrow(tx: Tx, s: State, r: string)
    ensures GuardOf(s, r).tombstones.Keys <= GuardOf(Apply(tx, s), r).tombstones.Keys
  {
    GuardAfter(tx, s, r);
  }
}
