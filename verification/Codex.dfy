/** Reading the remote service's replies: `internal/codex/client.go`. */
module Codex {
  import opened Basics
  import opened Sorting
  import opened Text
  import opened Records

  datatype Window = Window(usedPercent: real, resetAt: int)

  datatype Usage = Usage(
    allowed: bool,
    blocked: bool,
    usedPercent: real,
    primary: Option<Window>,
    secondary: Option<Window>,
    availableCount: int)

  datatype Credit = Credit(id: string, ref: string, expiresAt: Time)

  datatype CreditList = CreditList(availableCount: int, available: seq<Credit>)

  datatype ConsumeCode = Reset | AlreadyRedeemed | NothingToReset | NoCredit

  // A failed request; `retryAfter` is present when the failure was an HTTP status.
  datatype Failure = Failure(retryAfter: Option<Time>)

  // ---------------------------------------------------------------- usage

  datatype RawWindow = RawWindow(usedPercent: Option<real>, resetAt: Option<int>)

  datatype RawRateLimit = RawRateLimit(
    allowed: Option<bool>,
    limitReached: Option<bool>,
    primary: Option<RawWindow>,
    secondary: Option<RawWindow>)

  // `reachedType` is the raw text of a JSON value, "" when the field is missing;
  // `resetCredits` carries the optional count of an optional object.
  datatype RawUsage = RawUsage(
    rateLimit: Option<RawRateLimit>,
    reachedType: string,
    resetCredits: Option<Option<int>>)

  predicate GoodWindow(raw: RawWindow) {
    && raw.usedPercent.Some? && raw.resetAt.Some?
    && 0.0 <= raw.usedPercent.value <= 100.0 && raw.resetAt.value > 0
  }

  function ParseWindow(raw: Option<RawWindow>): Result<Option<Window>, string> {
    match raw
    case None => Ok(None)
    case Some(w) =>
      if GoodWindow(w) then Ok(Some(Window(w.usedPercent.value, w.resetAt.value)))
      else Err("invalid Codex rate-limit window")
  }

  predicate HasReachedType(raw: string) {
    var text := TrimSpace(raw);
    text != "" && text != "null" && text != "{}"
  }

  predicate ValidWindows(u: Usage) {
    && (u.primary.Some? ==> u.primary.value.resetAt > 0)
    && (u.secondary.Some? ==> u.secondary.value.resetAt > 0)
  }

  predicate ReadableUsage(raw: RawUsage) {
    && raw.rateLimit.Some? && raw.rateLimit.value.allowed.Some? && raw.rateLimit.value.limitReached.Some?
    && (raw.rateLimit.value.primary.Some? || raw.rateLimit.value.secondary.Some?)
    && (raw.rateLimit.value.primary.Some? ==> GoodWindow(raw.rateLimit.value.primary.value))
    && (raw.rateLimit.value.secondary.Some? ==> GoodWindow(raw.rateLimit.value.secondary.value))
    && (raw.resetCredits.Some? ==> raw.resetCredits.value.Some? && raw.resetCredits.value.value >= 0)
  }

  // The window is present or absent as in the answer, with the answer's percentage and end.
  predicate SameWindow(w: Option<Window>, raw: Option<RawWindow>) {
    && (w.Some? <==> raw.Some?)
    && (w.Some? ==> raw.value.usedPercent == Some(w.value.usedPercent) && raw.value.resetAt == Some(w.value.resetAt))
  }

  method ReadUsage(raw: RawUsage) returns (r: Result<Usage, string>)
    ensures r.Ok? <==> ReadableUsage(raw)
    ensures r.Ok? ==> ValidWindows(r.value) && r.value.availableCount >= 0
    // The percentage is the larger of the windows that are present.
    ensures r.Ok? ==>
              forall w | w in [r.value.primary, r.value.secondary] && w.Some? :: w.value.usedPercent <= r.value.usedPercent
    ensures r.Ok? ==>
              exists w | w in [r.value.primary, r.value.secondary] && w.Some? :: w.value.usedPercent == r.value.usedPercent
    // Blocked when any of the three signals says so.
    ensures r.Ok? ==> (r.value.blocked <==>
              || raw.rateLimit.value.limitReached.value || !raw.rateLimit.value.allowed.value
              || TrimSpace(raw.reachedType) !in {"", "null", "{}"})
    ensures r.Ok? ==> r.value.allowed == raw.rateLimit.value.allowed.value
    ensures r.Ok? ==> SameWindow(r.value.primary, raw.rateLimit.value.primary)
    ensures r.Ok? ==> SameWindow(r.value.secondary, raw.rateLimit.value.secondary)
    ensures r.Ok? ==> r.value.availableCount == if raw.resetCredits.None? then 0 else raw.resetCredits.value.value
  {
    if raw.rateLimit.None? || raw.rateLimit.value.allowed.None? || raw.rateLimit.value.limitReached.None? {
      return Err("incomplete Codex usage response");
    }
    var limit := raw.rateLimit.value;
    var primary := ParseWindow(limit.primary);
    if primary.Err? {
      return Err(primary.error);
    }
    var secondary := ParseWindow(limit.secondary);
    if secondary.Err? {
      return Err(secondary.error);
    }
    if primary.value.None? && secondary.value.None? {
      return Err("Codex usage response has no rate-limit windows");
    }
    var used := 0.0;
    var windows := [primary.value, secondary.value];
    for i := 0 to |windows|
      invariant used >= 0.0
      invariant forall w | w in windows[..i] && w.Some? :: w.value.usedPercent <= used
      invariant used == 0.0 || exists w | w in windows[..i] && w.Some? :: w.value.usedPercent == used
    {
      assert windows[..i + 1] == windows[..i] + [windows[i]];
      if windows[i].Some? && windows[i].value.usedPercent > used {
        used := windows[i].value.usedPercent;
      }
    }
    assert windows[..|windows|] == windows;
    var blocked := limit.limitReached.value || !limit.allowed.value || HasReachedType(raw.reachedType);
    var availableCount := 0;
    if raw.resetCredits.Some? {
      if raw.resetCredits.value.None? || raw.resetCredits.value.value < 0 {
        return Err("invalid reset credit summary");
      }
      availableCount := raw.resetCredits.value.value;
    }
    assert exists w | w in windows && w.Some? :: w.value.usedPercent == used by {
      if used == 0.0 {
        var w := if primary.value.Some? then primary.value else secondary.value;
        assert w in windows && w.Some? && w.value.usedPercent == used;
      }
    }
    r := Ok(Usage(limit.allowed.value, blocked, used, primary.value, secondary.value, availableCount));
  }

  // -------------------------------------------------------------- credits

  // A time stamp as text, with the instant RFC 3339 parsing gives it, if any.
  datatype Stamp = Stamp(text: string, instant: Option<Time>)

  datatype RawCredit = RawCredit(id: string, resetType: string, status: string, expiresAt: Option<Stamp>)

  predicate KnownStatus(item: RawCredit) {
    TrimSpace(item.status) in {"available", "redeeming", "redeemed"}
  }

  predicate IsAvailable(item: RawCredit) {
    TrimSpace(item.status) == "available"
  }

  predicate Complete(item: RawCredit, now: Time) {
    && TrimSpace(item.id) != ""
    && item.expiresAt.Some? && TrimSpace(item.expiresAt.value.text) != ""
    && item.expiresAt.value.instant.Some? && item.expiresAt.value.instant.value > now
  }

  predicate ResetsRateLimits(item: RawCredit) {
    TrimSpace(item.resetType) == "codex_rate_limits"
  }

  predicate Good(item: RawCredit, now: Time) {
    KnownStatus(item) && (IsAvailable(item) ==> Complete(item, now))
  }

  predicate AllGood(items: seq<RawCredit>, now: Time) {
    forall item | item in items :: Good(item, now)
  }

  function ToCredit(item: RawCredit): Credit
    requires item.expiresAt.Some? && item.expiresAt.value.instant.Some?
  {
    var id := TrimSpace(item.id);
    Credit(id, Hash("credit", id), item.expiresAt.value.instant.value)
  }

  // The trimmed ID of an available item, as a sequence of at most one element.
  function IdOf(item: RawCredit): seq<string> {
    if IsAvailable(item) then [TrimSpace(item.id)] else []
  }

  function AvailableIds(items: seq<RawCredit>): seq<string> {
    Collect(IdOf, items)
  }

  // The credit an item stands for, if it is one the engine can spend.
  function CreditOf(item: RawCredit): seq<Credit> {
    if IsAvailable(item) && item.expiresAt.Some? && item.expiresAt.value.instant.Some? && ResetsRateLimits(item)
    then [ToCredit(item)] else []
  }

  function Usable(items: seq<RawCredit>): seq<Credit> {
    Collect(CreditOf, items)
  }

  predicate Accepts(items: seq<RawCredit>, count: Option<int>, now: Time) {
    && count.Some?
    && AllGood(items, now)
    && Distinct(AvailableIds(items))
    && count.value == |AvailableIds(items)|
  }

  predicate Before(a: Credit, b: Credit) {
    a.expiresAt < b.expiresAt || (a.expiresAt == b.expiresAt && Less(a.id, b.id))
  }

  predicate StrictlySorted(s: seq<Credit>) {
    Chain(Before, s)
  }

  // What the engine relies on in a list read at `now`.
  predicate Listing(list: CreditList, now: Time) {
    && StrictlySorted(list.available)
    && |list.available| <= list.availableCount
    && (forall c | c in list.available :: c.expiresAt > now && c.ref == Hash("credit", c.id) && c.id != "")
  }

  // What is wrong with the item at `i`, if anything is: the first of these to apply.
  function Defect(items: seq<RawCredit>, i: nat, now: Time): Option<string>
    requires i < |items|
  {
    var item := items[i];
    var id := TrimSpace(item.id);
    if !KnownStatus(item) then Some("unknown reset credit status")
    else if !IsAvailable(item) then None
    else if id == "" || item.expiresAt.None? || TrimSpace(item.expiresAt.value.text) == ""
    then Some("available reset credit is incomplete")
    else if id in AvailableIds(items[..i]) then Some("duplicate reset credit ID")
    else if item.expiresAt.value.instant.None? then Some("invalid reset credit expiration")
    else if item.expiresAt.value.instant.value <= now then Some("reset credit is expired")
    else None
  }

  predicate Sound(items: seq<RawCredit>, upTo: nat, now: Time)
    requires upTo <= |items|
  {
    forall i | 0 <= i < upTo :: Defect(items, i, now).None?
  }

  // A rejection names the first defect of the first item that has one; the counts are compared at the very
  // beginning, whether there is one, and at the very end.
  predicate Rejects(items: seq<RawCredit>, count: Option<int>, now: Time, error: string) {
    if count.None? || count.value < 0 then error == "invalid reset credit response"
    else if Sound(items, |items|, now)
    then count.value != |AvailableIds(items)| && error == "reset credit list is incomplete"
    else exists i :: 0 <= i < |items| && Sound(items, i, now) && Defect(items, i, now) == Some(error)
  }

  // The checks the loop makes on one item; `seen` holds the IDs before it.
  method CheckItem(items: seq<RawCredit>, i: nat, seen: set<string>, now: Time) returns (defect: Option<string>)
    requires i < |items| && forall id :: id in seen <==> id in AvailableIds(items[..i])
    ensures defect == Defect(items, i, now)
  {
    var item := items[i];
    if !KnownStatus(item) {
      return Some("unknown reset credit status");
    }
    if !IsAvailable(item) {
      return None;
    }
    var id := TrimSpace(item.id);
    if id == "" || item.expiresAt.None? || TrimSpace(item.expiresAt.value.text) == "" {
      return Some("available reset credit is incomplete");
    }
    if id in seen {
      return Some("duplicate reset credit ID");
    }
    if item.expiresAt.value.instant.None? {
      return Some("invalid reset credit expiration");
    }
    if item.expiresAt.value.instant.value <= now {
      return Some("reset credit is expired");
    }
    return None;
  }

  // An item has no defect exactly when it is good and does not repeat an ID.
  lemma DefectFacts(items: seq<RawCredit>, i: nat, now: Time)
    requires i < |items|
    ensures Defect(items, i, now).None? <==>
            Good(items[i], now) && (IsAvailable(items[i]) ==> TrimSpace(items[i].id) !in AvailableIds(items[..i]))
    ensures Defect(items, i, now).Some? ==> !AllGood(items, now) || !Distinct(AvailableIds(items))
  {
    assert items[i] in items;
    if IsAvailable(items[i]) && TrimSpace(items[i].id) in AvailableIds(items[..i]) {
      RepeatedId(items, i);
    }
  }

  method ReadCredits(items: seq<RawCredit>, count: Option<int>, now: Time) returns (r: Result<CreditList, string>)
    ensures r.Ok? <==> Accepts(items, count, now)
    ensures r.Ok? ==> Listing(r.value, now) && r.value.availableCount == count.value
    ensures r.Ok? ==> r.value.available == Sorted(Usable(items))
    // Whatever expires first comes first; credits that expire together come by ID.
    ensures r.Ok? ==> forall i, j | 0 <= i < j < |r.value.available| ::
              var a, b := r.value.available[i], r.value.available[j];
              a.expiresAt < b.expiresAt || (a.expiresAt == b.expiresAt && Less(a.id, b.id))
    ensures r.Err? ==> Rejects(items, count, now, r.error)
  {
    if count.None? || count.value < 0 {
      return Err("invalid reset credit response");
    }
    var availableDetails := 0;
    var available: seq<Credit> := [];
    var seen: set<string> := {};
    for i := 0 to |items|
      invariant availableDetails == |AvailableIds(items[..i])|
      invariant available == Usable(items[..i])
      invariant forall id :: id in seen <==> id in AvailableIds(items[..i])
      invariant Distinct(AvailableIds(items[..i]))
      invariant AllGood(items[..i], now) && Sound(items, i, now)
    {
      var item := items[i];
      CollectNext(IdOf, items, i);
      CollectNext(CreditOf, items, i);
      AllGoodNext(items, i, now);
      DefectFacts(items, i, now);
      var defect := CheckItem(items, i, seen, now);
      if defect.Some? {
        return Err(defect.value);
      }
      if !IsAvailable(item) {
        continue;
      }
      availableDetails := availableDetails + 1;
      seen := seen + {TrimSpace(item.id)};
      if ResetsRateLimits(item) {
        available := available + [ToCredit(item)];
      }
    }
    assert items[..|items|] == items;
    if count.value != availableDetails {
      return Err("reset credit list is incomplete");
    }
    UsableFacts(items, now);
    SortedFacts(available);
    r := Ok(CreditList(count.value, Sorted(available)));
  }

  lemma AllGoodNext(items: seq<RawCredit>, i: nat, now: Time)
    requires i < |items|
    ensures AllGood(items[..i + 1], now) <==> AllGood(items[..i], now) && Good(items[i], now)
    ensures AllGood(items, now) ==> Good(items[i], now)
  {
    assert items[..i + 1] == items[..i] + [items[i]];
    assert items[i] in items;
  }

  lemma RepeatedId(items: seq<RawCredit>, i: nat)
    requires i < |items| && IsAvailable(items[i])
    requires TrimSpace(items[i].id) in AvailableIds(items[..i])
    ensures !Distinct(AvailableIds(items))
  {
    var earlier := AvailableIds(items[..i]);
    var k :| 0 <= k < |earlier| && earlier[k] == TrimSpace(items[i].id);
    CollectNext(IdOf, items, i);
    CollectConcat(IdOf, items[..i + 1], items[i + 1..]);
    assert items == items[..i + 1] + items[i + 1..];
    var ids := AvailableIds(items);
    assert ids[k] == ids[|earlier|];
  }

  // The usable credits are future ones, at most as many as the available items, with distinct IDs.
  lemma {:induction false} UsableFacts(items: seq<RawCredit>, now: Time)
    requires AllGood(items, now) && Distinct(AvailableIds(items))
    ensures |Usable(items)| <= |AvailableIds(items)|
    ensures forall c | c in Usable(items) ::
              c.id in AvailableIds(items) && c.expiresAt > now && c.ref == Hash("credit", c.id) && c.id != ""
    ensures DistinctIds(Usable(items))
  {
    if items != [] {
      var n := |items| - 1;
      var front, last := items[..n], items[n];
      assert items == front + [last];
      AllGoodNext(items, n, now);
      var ids, older := AvailableIds(items), AvailableIds(front);
      assert ids == older + IdOf(last);
      assert forall i | 0 <= i < |older| :: older[i] == ids[i];
      UsableFacts(front, now);
      if IsAvailable(last) {
        assert ids[|older|] == TrimSpace(last.id);
        assert TrimSpace(last.id) !in older;
      }
    }
  }

  predicate DistinctIds(s: seq<Credit>) {
    forall i, j | 0 <= i < j < |s| :: s[i].id != s[j].id
  }

  lemma BeforeIsStrict()
    ensures Transitive(Before) && Irreflexive(Before)
  {
    forall a, b, c | Before(a, b) && Before(b, c)
      ensures Before(a, c)
    {
      if a.expiresAt == b.expiresAt == c.expiresAt {
        LessTransitive(a.id, b.id, c.id);
      }
    }
    forall a: Credit
      ensures !Before(a, a)
    {
      LessIrreflexive(a.id);
    }
  }

  function Sorted(s: seq<Credit>): seq<Credit> {
    Sort(Before, s)
  }

  lemma SortedFacts(s: seq<Credit>)
    requires DistinctIds(s)
    ensures StrictlySorted(Sorted(s)) && multiset(Sorted(s)) == multiset(s)
    ensures |Sorted(s)| == |s| && forall c :: c in Sorted(s) <==> c in s
  {
    BeforeIsStrict();
    forall i, j | 0 <= i < j < |s|
      ensures Before(s[i], s[j]) || Before(s[j], s[i])
    {
      LessTotal(s[i].id, s[j].id);
    }
    SortFacts(Before, s);
  }

  // The service may list its credits in any order: acceptance and the resulting list stay the same.
  lemma ListingOrderIrrelevant(items: seq<RawCredit>, other: seq<RawCredit>, count: Option<int>, now: Time)
    requires multiset(items) == multiset(other)
    ensures Accepts(items, count, now) <==> Accepts(other, count, now)
    ensures Accepts(items, count, now) ==> Sorted(Usable(items)) == Sorted(Usable(other))
  {
    CollectPermuted(IdOf, items, other);
    CollectPermuted(CreditOf, items, other);
    DistinctPermuted(AvailableIds(items), AvailableIds(other));
    DistinctPermuted(items, other);
    if Accepts(items, count, now) {
      UsableFacts(items, now);
      UsableFacts(other, now);
      SortedFacts(Usable(items));
      SortedFacts(Usable(other));
      DistinctPermuted(Usable(items), Usable(other));
      BeforeIsStrict();
      ChainUnique(Before, Sorted(Usable(items)), Sorted(Usable(other)));
    }
  }

  // ----------------------------------------------------------- selection

  predicate Tombstoned(id: string, tombstones: map<string, Time>) {
    Hash("ref", id) in tombstones
  }

  function FirstUsable(credits: seq<Credit>, tombstones: map<string, Time>): (r: Option<Credit>)
    ensures r.Some? ==> r.value in credits && !Tombstoned(r.value.id, tombstones)
    ensures r.None? ==> forall c | c in credits :: Tombstoned(c.id, tombstones)
  {
    if credits == [] then None
    else if !Tombstoned(credits[0].id, tombstones) then Some(credits[0])
    else FirstUsable(credits[1..], tombstones)
  }

  // On a sorted list the chosen credit precedes every other credit that has no tombstone.
  lemma {:induction false} FirstUsableIsLeast(credits: seq<Credit>, tombstones: map<string, Time>, other: Credit)
    requires StrictlySorted(credits)
    requires other in credits && !Tombstoned(other.id, tombstones)
    ensures FirstUsable(credits, tombstones).Some?
    ensures var r := FirstUsable(credits, tombstones).value; r == other || Before(r, other)
  {
    if Tombstoned(credits[0].id, tombstones) {
      FirstUsableIsLeast(credits[1..], tombstones, other);
    }
  }

  predicate Contains(credits: seq<Credit>, id: string) {
    exists c | c in credits :: c.id == id
  }

  // -------------------------------------------------------------- consume

  function CodeText(code: ConsumeCode): string {
    match code
    case Reset => "reset"
    case AlreadyRedeemed => "already_redeemed"
    case NothingToReset => "nothing_to_reset"
    case NoCredit => "no_credit"
  }

  function ParseCode(text: string): (r: Option<ConsumeCode>)
    ensures r.Some? ==> CodeText(r.value) == text
    ensures r.None? ==> forall code :: CodeText(code) != text
  {
    match text
    case "reset" => Some(Reset)
    case "already_redeemed" => Some(AlreadyRedeemed)
    case "nothing_to_reset" => Some(NothingToReset)
    case "no_credit" => Some(NoCredit)
    case _ => None
  }

  // Only the four known codes reach the engine, and nothing is sent without a credit and a key. `answer` is the
  // code of the service's answer, if there was one that could be read.
  method ReadConsume(creditId: string, key: string, answer: Option<string>) returns (r: Result<ConsumeCode, string>)
    ensures r.Ok? <==> TrimSpace(creditId) != "" && TrimSpace(key) != "" && exists code :: answer == Some(CodeText(code))
    ensures r.Ok? ==> answer == Some(CodeText(r.value))
    ensures r == Ok(Reset) ==> answer == Some("reset")
    ensures r == Ok(AlreadyRedeemed) ==> answer == Some("already_redeemed")
    ensures r == Ok(NothingToReset) ==> answer == Some("nothing_to_reset")
    ensures r == Ok(NoCredit) ==> answer == Some("no_credit")
  {
    if TrimSpace(creditId) == "" || TrimSpace(key) == "" {
      return Err("credit ID and idempotency key are required");
    }
    if answer.None? {
      return Err("invalid reset consume response");
    }
    var code := ParseCode(answer.value);
    if code.None? {
      return Err("unknown reset consume result");
    }
    return Ok(code.value);
  }
}
