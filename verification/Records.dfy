/** The persisted state: `internal/state/model.go`.

    An account record is kept in three parts. `guard` holds what decides whether a
    reset may be attempted, `profile` what discovery and participation edits write,
    and `report` what is only shown or logged. */
module Records {
  import opened Basics

  // Instants and durations in integer nanoseconds; 0 is the zero instant.
  type Time = int

  const ZERO_TIME: Time := 0
  const SECOND: Time := 1_000_000_000
  const MINUTE: Time := 60 * SECOND
  const HOUR: Time := 60 * MINUTE

  const MAX_LOGS: nat := 500

  // A truncated SHA-256 is taken to be injective: here it is its own preimage.
  function Hash(namespace: string, value: string): string {
    namespace + "\0" + value
  }

  datatype Attempt = Attempt(
    creditId: string,
    creditRef: string,
    key: string,
    createdAt: Time,
    expiresAt: Time,
    phase: string,
    fingerprint: string,
    verificationCount: nat,
    preAvailableCount: int,
    preUsedPercent: real,
    preBlocked: bool)
  {
    function AttemptIdRef(): string {
      Hash("ref", key)
    }
  }

  datatype Cooldown = Cooldown(until: Time, reason: string)

  datatype Backoff = Backoff(until: Time, fingerprint: string, level: int, reason: string)

  datatype LocalClear = LocalClear(authIndex: string, createdAt: Time, nextRetryAt: Time, attempts: nat)

  datatype Guard = Guard(
    pending: Option<Attempt>,
    tombstones: map<string, Time>,
    cooldown: Option<Cooldown>,
    backoff: Option<Backoff>,
    localClear: Option<LocalClear>)

  const BLANK := Guard(None, map[], None, None, None)

  datatype Display = Display(name: string, email: string, fileName: string, authId: string)

  datatype Profile = Profile(
    participating: bool,
    participationSetAt: Time,
    lastSeenAt: Time,
    present: Option<bool>,
    display: Display)

  datatype Report = Report(
    lastFingerprint: string,
    lastResult: string,
    availableCredits: int,
    earliestExpiresAt: Time,
    usedPercent: real,
    blocked: bool,
    lastScannedAt: Time,
    lastErrorCode: string)

  const NO_REPORT := Report("", "", 0, ZERO_TIME, 0.0, false, ZERO_TIME, "")

  datatype AccountState = AccountState(profile: Profile, guard: Guard, report: Report) {
    // A record without presence information counts as present.
    predicate IsPresent() {
      profile.present == None || profile.present.value
    }
  }

  datatype ScanSummary = ScanSummary(
    startedAt: Time,
    finishedAt: Time,
    trigger: string,
    accounts: int,
    eligible: int,
    reset: int,
    errors: int,
    error: string)

  const NO_SCAN := ScanSummary(ZERO_TIME, ZERO_TIME, "", 0, 0, 0, 0, "")

  datatype LogEntry = LogEntry(
    time: Time,
    event: string,
    trigger: string := "",
    accountRef: string := "",
    participating: bool := false,
    creditRef: string := "",
    decision: string := "",
    outcome: string := "",
    attemptIdRef: string := "",
    nextAttemptAt: Time := 0,
    durationMs: int := 0,
    errorCode: string := "")

  datatype State = State(
    accounts: map<string, AccountState>,
    management: Option<Cooldown>,
    lastScan: ScanSummary,
    logs: seq<LogEntry>)

  const NEW_STATE := State(map[], None, NO_SCAN, [])

  function AppendLog(logs: seq<LogEntry>, entry: LogEntry): seq<LogEntry> {
    var longer := logs + [entry];
    if |longer| > MAX_LOGS then longer[|longer| - MAX_LOGS..] else longer
  }

  // The newest `n` entries of a history.
  function Newest(history: seq<LogEntry>, n: nat): seq<LogEntry> {
    if |history| > n then history[|history| - n..] else history
  }

  lemma AppendKeepsNewest(history: seq<LogEntry>, entry: LogEntry)
    ensures AppendLog(Newest(history, MAX_LOGS), entry) == Newest(history + [entry], MAX_LOGS)
  {
    var kept, all := Newest(history, MAX_LOGS), history + [entry];
    if |history| >= MAX_LOGS {
      assert kept + [entry] == all[|history| - MAX_LOGS..];
    }
  }

  // The guard of an account; an account without a record has a blank one.
  function GuardOf(s: State, ref: string): Guard {
    if ref in s.accounts then s.accounts[ref].guard else BLANK
  }

  function CooldownUntil(c: Option<Cooldown>): Time {
    if c.None? then ZERO_TIME else c.value.until
  }

  function BackoffUntil(b: Option<Backoff>): Time {
    if b.None? then ZERO_TIME else b.value.until
  }

  function ClearUntil(c: Option<LocalClear>): Time {
    if c.None? then ZERO_TIME else c.value.nextRetryAt
  }
}
