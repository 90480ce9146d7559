/** What the management pages show: `internal/web/handler.go`. */
module Web {
  import opened Basics
  import opened Sorting
  import opened Text
  import opened Records
  import opened Protocol
  import opened Theorems
  import opened Deadlines

  // ----------------------------------------------------------------- logs

  function Reversed<T>(s: seq<T>): seq<T> {
    if s == [] then [] else [s[|s| - 1]] + Reversed(s[..|s| - 1])
  }

  lemma {:induction false} ReversedAt<T>(s: seq<T>, k: nat)
    requires k < |s|
    ensures |Reversed(s)| == |s| && Reversed(s)[k] == s[|s| - 1 - k]
  {
    if k > 0 {
      ReversedAt(s[..|s| - 1], k - 1);
    } else if |s| > 1 {
      ReversedAt(s[..|s| - 1], 0);
    }
  }

  lemma ReversedThroughout<T>(s: seq<T>, t: seq<T>)
    requires |t| == |s| && forall k | 0 <= k < |t| :: t[k] == s[|s| - 1 - k]
    ensures t == Reversed(s)
  {
    if s != [] {
      ReversedAt(s, 0);
    }
    forall k | 0 <= k < |t|
      ensures t[k] == Reversed(s)[k]
    {
      ReversedAt(s, k);
    }
  }

  // A copy of the stored log, turned round in place.
  method Logs(stored: seq<LogEntry>) returns (logs: array<LogEntry>)
    ensures fresh(logs) && logs[..] == Reversed(stored)
  {
    logs := new LogEntry[|stored|](i requires 0 <= i < |stored| => stored[i]);
    assert logs[..] == stored;
    var left, right := 0, |stored| - 1;
    while left < right
      invariant 0 <= left <= right + 1 <= |stored| && left + right == |stored| - 1
      invariant forall k | 0 <= k < left || right < k < |stored| :: logs[k] == stored[|stored| - 1 - k]
      invariant forall k | left <= k <= right :: logs[k] == stored[k]
    {
      logs[left], logs[right] := logs[right], logs[left];
      left, right := left + 1, right - 1;
    }
    ReversedThroughout(stored, logs[..]);
  }

  // `page` lists the newest five hundred entries of `h`, newest first.
  predicate NewestFirst(page: seq<LogEntry>, h: seq<LogEntry>) {
    && |page| == Min(|h|, MAX_LOGS)
    && forall k | 0 <= k < |page| :: page[k] == h[|h| - 1 - k]
  }

  lemma NewestReversed(h: seq<LogEntry>)
    ensures NewestFirst(Reversed(Newest(h, MAX_LOGS)), h)
  {
    var page := Reversed(Newest(h, MAX_LOGS));
    if h != [] {
      ReversedAt(Newest(h, MAX_LOGS), 0);
    }
    forall k | 0 <= k < |page|
      ensures page[k] == h[|h| - 1 - k]
    {
      ReversedAt(Newest(h, MAX_LOGS), k);
    }
  }

  // The page shows the newest five hundred of all entries ever committed, newest first.
  lemma LogsNewestFirst(w: World)
    requires Reached(w)
    ensures NewestFirst(Reversed(w.disk.logs), w.audit.history)
  {
    LogRefinement(w);
    NewestReversed(w.audit.history);
  }

  // ------------------------------------------------------------- accounts

  method NextAllowedAt(item: AccountState) returns (next: Time)
    ensures next == NextAllowed(item.guard)
  {
    next := ZERO_TIME;
    var candidates := [CooldownUntil(item.guard.cooldown), BackoffUntil(item.guard.backoff), ClearUntil(item.guard.localClear)];
    for i := 0 to |candidates|
      invariant i == 0 ==> next == ZERO_TIME
      invariant i == 1 ==> next == Max(ZERO_TIME, candidates[0])
      invariant i == 2 ==> next == Max(Max(ZERO_TIME, candidates[0]), candidates[1])
      invariant i == 3 ==> next == NextAllowed(item.guard)
    {
      if candidates[i] > next {
        next := candidates[i];
      }
    }
  }

  function Present(accounts: map<string, AccountState>): set<string> {
    set r | r in accounts && accounts[r].IsPresent()
  }

  datatype Counts = Counts(total: nat, participating: nat, notParticipating: nat, withCredits: nat,
                           coolingOrBackoff: nat, errors: nat)

  datatype View = View(
    id: string,
    heading: string,
    email: string,
    fileName: string,
    participating: bool,
    availableCredits: int,
    earliestExpiresAt: Option<Time>,
    usedPercent: real,
    blocked: bool,
    lastResult: string,
    nextAllowedAt: Option<Time>,
    lastScannedAt: Option<Time>,
    errorCode: string)

  function OptionalTime(t: Time): Option<Time> {
    if t == ZERO_TIME then None else Some(t)
  }

  function ViewOf(id: string, item: AccountState): View {
    var d, r := item.profile.display, item.report;
    View(id, d.name, d.email, d.fileName, item.profile.participating, r.availableCredits, OptionalTime(r.earliestExpiresAt),
         r.usedPercent, r.blocked, r.lastResult, OptionalTime(NextAllowed(item.guard)), OptionalTime(r.lastScannedAt),
         r.lastErrorCode)
  }

  // The order of the page; `lower` is the library's mapping to lower case.
  function ByHeading(lower: string -> string): (View, View) -> bool {
    (a: View, b: View) => Less(lower(a.heading) + a.id, lower(b.heading) + b.id)
  }

  lemma ByHeadingIsWeak(lower: string -> string)
    ensures Weak(ByHeading(lower))
  {
    forall a, b | ByHeading(lower)(a, b)
      ensures !ByHeading(lower)(b, a)
    {
      LessAsymmetric(lower(a.heading) + a.id, lower(b.heading) + b.id);
    }
    forall a, b, c | !ByHeading(lower)(b, a) && !ByHeading(lower)(c, b)
      ensures !ByHeading(lower)(c, a)
    {
      NotLessTransitive(lower(a.heading) + a.id, lower(b.heading) + b.id, lower(c.heading) + c.id);
    }
  }

  // Reordering the views changes nothing about what they show.
  lemma ShowsPermuted(views: seq<View>, again: seq<View>, accounts: map<string, AccountState>, refs: set<string>)
    requires Shows(views, accounts, refs) && multiset(views) == multiset(again)
    ensures Shows(again, accounts, refs)
  {
    DistinctPermuted(views, again);
    assert forall v :: v in views <==> v in multiset(views);
    assert forall v :: v in again <==> v in multiset(again);
    forall i, j | 0 <= i < j < |again|
      ensures again[i].id != again[j].id
    {
      assert again[i] in views && again[j] in views && again[i] != again[j];
    }
  }

  function Flag(b: bool): nat {
    if b then 1 else 0
  }

  function CountView(c: Counts, v: View): Counts {
    Counts(c.total + 1, c.participating + Flag(v.participating), c.notParticipating + Flag(!v.participating),
           c.withCredits + Flag(v.availableCredits > 0), c.coolingOrBackoff + Flag(v.nextAllowedAt.Some?),
           c.errors + Flag(v.errorCode != ""))
  }

  // The counts a list of account views gives.
  function CountViews(views: seq<View>): Counts {
    if views == [] then Counts(0, 0, 0, 0, 0, 0) else CountView(CountViews(views[..|views| - 1]), views[|views| - 1])
  }

  // One view for each account the latest discovery found, in some order.
  predicate Shows(views: seq<View>, accounts: map<string, AccountState>, refs: set<string>) {
    && (forall i, j | 0 <= i < j < |views| :: views[i].id != views[j].id)
    && (forall v | v in views :: v.id in refs && v.id in accounts && v == ViewOf(v.id, accounts[v.id]))
    && (forall r | r in refs && r in accounts :: ViewOf(r, accounts[r]) in views)
  }

  // The account takes part in what the pages show: it was not found absent.
  predicate Visible(accounts: map<string, AccountState>, ref: string) {
    ref in accounts && accounts[ref].profile.present != Some(false)
  }

  // The latest of the deadlines is over none of them and one of them.
  predicate LatestOf(next: Option<Time>, g: Guard) {
    && (g.cooldown.Some? && g.cooldown.value.until > ZERO_TIME ==> next.Some? && g.cooldown.value.until <= next.value)
    && (g.backoff.Some? && g.backoff.value.until > ZERO_TIME ==> next.Some? && g.backoff.value.until <= next.value)
    && (g.localClear.Some? && g.localClear.value.nextRetryAt > ZERO_TIME ==>
          next.Some? && g.localClear.value.nextRetryAt <= next.value)
    && (next.Some? ==>
          && next.value > ZERO_TIME
          && (|| (g.cooldown.Some? && next.value == g.cooldown.value.until)
              || (g.backoff.Some? && next.value == g.backoff.value.until)
              || (g.localClear.Some? && next.value == g.localClear.value.nextRetryAt)))
  }

  predicate Instant(shown: Option<Time>, t: Time) {
    if t == ZERO_TIME then shown.None? else shown == Some(t)
  }

  // The view says of each thing what is on record about it.
  predicate Presents(v: View, item: AccountState) {
    && v.heading == item.profile.display.name && v.email == item.profile.display.email
    && v.fileName == item.profile.display.fileName && v.participating == item.profile.participating
    && v.availableCredits == item.report.availableCredits && v.usedPercent == item.report.usedPercent
    && v.blocked == item.report.blocked && v.lastResult == item.report.lastResult
    && v.errorCode == item.report.lastErrorCode
    && Instant(v.earliestExpiresAt, item.report.earliestExpiresAt) && Instant(v.lastScannedAt, item.report.lastScannedAt)
    && LatestOf(v.nextAllowedAt, item.guard)
  }

  // One view for each visible account, and no other.
  predicate Presented(views: seq<View>, accounts: map<string, AccountState>) {
    && (forall i, j | 0 <= i < j < |views| :: views[i].id != views[j].id)
    && (forall v | v in views :: Visible(accounts, v.id) && Presents(v, accounts[v.id]))
    && (forall r | r in accounts && Visible(accounts, r) :: exists v | v in views :: v.id == r)
  }

  lemma ViewPresents(id: string, item: AccountState)
    ensures Presents(ViewOf(id, item), item) && ViewOf(id, item).id == id
  {
  }

  lemma ShowsPresented(views: seq<View>, accounts: map<string, AccountState>)
    requires Shows(views, accounts, Present(accounts))
    ensures Presented(views, accounts)
  {
    forall v | v in views
      ensures Visible(accounts, v.id) && Presents(v, accounts[v.id])
    {
      ViewPresents(v.id, accounts[v.id]);
    }
    forall r | r in accounts && Visible(accounts, r)
      ensures exists v | v in views :: v.id == r
    {
      ViewPresents(r, accounts[r]);
      assert ViewOf(r, accounts[r]) in views;
    }
  }

  // A deadline of the account lies after the zero instant.
  predicate Deferred(g: Guard) {
    || (g.cooldown.Some? && g.cooldown.value.until > ZERO_TIME)
    || (g.backoff.Some? && g.backoff.value.until > ZERO_TIME)
    || (g.localClear.Some? && g.localClear.value.nextRetryAt > ZERO_TIME)
  }

  // Each counter is the number of visible accounts it stands for.
  predicate Tallied(c: Counts, accounts: map<string, AccountState>) {
    && c.total == |set r | r in accounts && Visible(accounts, r)|
    && c.participating == |set r | r in accounts && Visible(accounts, r) && accounts[r].profile.participating|
    && c.notParticipating == |set r | r in accounts && Visible(accounts, r) && !accounts[r].profile.participating|
    && c.withCredits == |set r | r in accounts && Visible(accounts, r) && accounts[r].report.availableCredits > 0|
    && c.coolingOrBackoff == |set r | r in accounts && Visible(accounts, r) && Deferred(accounts[r].guard)|
    && c.errors == |set r | r in accounts && Visible(accounts, r) && accounts[r].report.lastErrorCode != ""|
  }

  lemma DeferredIff(item: AccountState)
    ensures NextAllowed(item.guard) != ZERO_TIME <==> Deferred(item.guard)
  {
  }

  lemma CensusTallies(accounts: map<string, AccountState>)
    ensures Tallied(Census(accounts, Present(accounts)), accounts)
  {
    var all := Present(accounts);
    forall r | r in accounts
      ensures Has(CoolingOrBackoff, accounts[r]) <==> Deferred(accounts[r].guard)
    {
      DeferredIff(accounts[r]);
    }
    assert all == set r | r in accounts && Visible(accounts, r);
    assert Where(accounts, all, Participating) == set r | r in accounts && Visible(accounts, r) && accounts[r].profile.participating;
    assert Where(accounts, all, NotParticipating) ==
           set r | r in accounts && Visible(accounts, r) && !accounts[r].profile.participating;
    assert Where(accounts, all, WithCredits) ==
           set r | r in accounts && Visible(accounts, r) && accounts[r].report.availableCredits > 0;
    assert Where(accounts, all, CoolingOrBackoff) == set r | r in accounts && Visible(accounts, r) && Deferred(accounts[r].guard);
    assert Where(accounts, all, Erring) ==
           set r | r in accounts && Visible(accounts, r) && accounts[r].report.lastErrorCode != "";
  }

  // What the status page counts.
  datatype Trait = Participating | NotParticipating | WithCredits | CoolingOrBackoff | Erring

  predicate Has(t: Trait, item: AccountState) {
    match t
    case Participating => item.profile.participating
    case NotParticipating => !item.profile.participating
    case WithCredits => item.report.availableCredits > 0
    case CoolingOrBackoff => NextAllowed(item.guard) != ZERO_TIME
    case Erring => item.report.lastErrorCode != ""
  }

  function Where(accounts: map<string, AccountState>, refs: set<string>, t: Trait): set<string> {
    set r | r in refs && r in accounts && Has(t, accounts[r])
  }

  // How many of the accounts `refs` have each property.
  function Census(accounts: map<string, AccountState>, refs: set<string>): Counts {
    Counts(|refs|, |Where(accounts, refs, Participating)|, |Where(accounts, refs, NotParticipating)|,
           |Where(accounts, refs, WithCredits)|, |Where(accounts, refs, CoolingOrBackoff)|, |Where(accounts, refs, Erring)|)
  }

  lemma WhereOneMore(accounts: map<string, AccountState>, refs: set<string>, r: string, t: Trait)
    requires r !in refs && r in accounts
    ensures |Where(accounts, refs + {r}, t)| == |Where(accounts, refs, t)| + Flag(Has(t, accounts[r]))
  {
    assert Where(accounts, refs + {r}, t) == Where(accounts, refs, t) + (if Has(t, accounts[r]) then {r} else {});
  }

  function Tally(c: Counts, item: AccountState): Counts {
    Counts(c.total + 1,
           c.participating + Flag(Has(Participating, item)),
           c.notParticipating + Flag(Has(NotParticipating, item)),
           c.withCredits + Flag(Has(WithCredits, item)),
           c.coolingOrBackoff + Flag(Has(CoolingOrBackoff, item)),
           c.errors + Flag(Has(Erring, item)))
  }

  lemma CensusOneMore(accounts: map<string, AccountState>, refs: set<string>, r: string)
    requires r !in refs && r in accounts
    ensures Census(accounts, refs + {r}) == Tally(Census(accounts, refs), accounts[r])
  {
    WhereOneMore(accounts, refs, r, Participating);
    WhereOneMore(accounts, refs, r, NotParticipating);
    WhereOneMore(accounts, refs, r, WithCredits);
    WhereOneMore(accounts, refs, r, CoolingOrBackoff);
    WhereOneMore(accounts, refs, r, Erring);
  }

  lemma EmptyCensus(accounts: map<string, AccountState>)
    ensures Census(accounts, {}) == Counts(0, 0, 0, 0, 0, 0)
  {
  }

  // Every account is counted as participating or as not participating, and never as both.
  lemma Partition(accounts: map<string, AccountState>, refs: set<string>)
    requires refs <= accounts.Keys
    ensures Census(accounts, refs).participating + Census(accounts, refs).notParticipating == Census(accounts, refs).total
  {
    var yes, no := Where(accounts, refs, Participating), Where(accounts, refs, NotParticipating);
    assert yes + no == refs;
  }

  // The body of the counting loop.
  method CountAccount(before: Counts, item: AccountState) returns (c: Counts)
    ensures c == Tally(before, item)
  {
    c := before.(total := before.total + 1);
    if item.profile.participating {
      c := c.(participating := c.participating + 1);
    } else {
      c := c.(notParticipating := c.notParticipating + 1);
    }
    if item.report.availableCredits > 0 {
      c := c.(withCredits := c.withCredits + 1);
    }
    var next := NextAllowedAt(item);
    if next != ZERO_TIME {
      c := c.(coolingOrBackoff := c.coolingOrBackoff + 1);
    }
    if item.report.lastErrorCode != "" {
      c := c.(errors := c.errors + 1);
    }
  }

  // The next scan is due an interval after the latest one ended; before the first there is none.
  method Status(s: State, interval: Time) returns (lastScan: ScanSummary, nextScan: Time, c: Counts)
    ensures c == Census(s.accounts, Present(s.accounts)) && lastScan == s.lastScan
    ensures Tallied(c, s.accounts)
    ensures nextScan == if lastScan.finishedAt == ZERO_TIME then ZERO_TIME else lastScan.finishedAt + interval
  {
    lastScan, nextScan := s.lastScan, ZERO_TIME;
    if s.lastScan.finishedAt != ZERO_TIME {
      nextScan := s.lastScan.finishedAt + interval;
    }
    c := Count(s.accounts);
    CensusTallies(s.accounts);
  }

  // The counting loop of the status page.
  method Count(accounts: map<string, AccountState>) returns (c: Counts)
    ensures c == Census(accounts, Present(accounts))
  {
    c := Counts(0, 0, 0, 0, 0, 0);
    var left := accounts.Keys;
    ghost var seen: set<string> := {};
    EmptyCensus(accounts);
    while left != {}
      invariant left <= accounts.Keys && seen == Present(accounts) - left
      invariant c == Census(accounts, seen)
      decreases left
    {
      var ref :| ref in left;
      left := left - {ref};
      var item := accounts[ref];
      if !item.IsPresent() {
        continue;
      }
      c := CountAccount(c, item);
      CensusOneMore(accounts, seen, ref);
      assert seen + {ref} == Present(accounts) - left;
      seen := seen + {ref};
    }
    assert seen == Present(accounts);
  }

  // The account page: one view of each present account, ordered by heading and reference.
  method Accounts(accounts: map<string, AccountState>, lower: string -> string) returns (views: seq<View>)
    ensures Shows(views, accounts, Present(accounts)) && Ordered(ByHeading(lower), views)
    ensures Presented(views, accounts)
    ensures forall i, j | 0 <= i < j < |views| ::
              !Less(lower(views[j].heading) + views[j].id, lower(views[i].heading) + views[i].id)
  {
    var found := Views(accounts);
    ByHeadingIsWeak(lower);
    SortOrdered(ByHeading(lower), found);
    views := Sort(ByHeading(lower), found);
    ShowsPermuted(found, views, accounts, Present(accounts));
    ShowsPresented(views, accounts);
    assert forall i, j | 0 <= i < j < |views| :: !ByHeading(lower)(views[j], views[i]);
  }

  method Views(accounts: map<string, AccountState>) returns (views: seq<View>)
    ensures Shows(views, accounts, Present(accounts))
  {
    views := [];
    var left := accounts.Keys;
    ghost var seen: set<string> := {};
    while left != {}
      invariant left <= accounts.Keys && seen == Present(accounts) - left
      invariant Shows(views, accounts, seen)
      decreases left
    {
      var ref :| ref in left;
      left := left - {ref};
      var item := accounts[ref];
      if !item.IsPresent() {
        continue;
      }
      seen := seen + {ref};
      var next := NextAllowedAt(item);
      var d, r := item.profile.display, item.report;
      views := views + [View(ref, d.name, d.email, d.fileName, item.profile.participating, r.availableCredits,
                             OptionalTime(r.earliestExpiresAt), r.usedPercent, r.blocked, r.lastResult,
                             OptionalTime(next), OptionalTime(r.lastScannedAt), r.lastErrorCode)];
    }
    assert seen == Present(accounts);
  }

  lemma ShowsFront(views: seq<View>, accounts: map<string, AccountState>, refs: set<string>)
    requires Shows(views, accounts, refs) && refs <= accounts.Keys && views != []
    ensures var front, v := views[..|views| - 1], views[|views| - 1];
            v.id in refs && v == ViewOf(v.id, accounts[v.id]) && Shows(front, accounts, refs - {v.id})
  {
    var front, v := views[..|views| - 1], views[|views| - 1];
    assert views == front + [v];
    forall r | r in refs - {v.id}
      ensures ViewOf(r, accounts[r]) in front
    {
      assert ViewOf(r, accounts[r]) in views && ViewOf(r, accounts[r]).id == r;
    }
    forall u | u in front
      ensures u.id in refs - {v.id}
    {
      assert u in views;
    }
  }

  lemma ShownIds(views: seq<View>, accounts: map<string, AccountState>, refs: set<string>)
    requires Shows(views, accounts, refs) && refs <= accounts.Keys
    ensures refs == set v | v in views :: v.id
  {
    forall r | r in refs
      ensures exists v | v in views :: v.id == r
    {
      assert ViewOf(r, accounts[r]).id == r;
    }
  }

  lemma NothingShown(accounts: map<string, AccountState>, refs: set<string>)
    requires Shows([], accounts, refs) && refs <= accounts.Keys
    ensures Census(accounts, refs) == Counts(0, 0, 0, 0, 0, 0)
  {
    ShownIds([], accounts, refs);
    assert refs == {};
  }

  // A view and the account it shows are counted alike.
  lemma CountedAlike(c: Counts, id: string, item: AccountState)
    ensures CountView(c, ViewOf(id, item)) == Tally(c, item)
  {
  }

  // The status page counts exactly what the accounts page lists.
  lemma {:induction false} PagesAgree(views: seq<View>, accounts: map<string, AccountState>, refs: set<string>)
    requires Shows(views, accounts, refs) && refs <= accounts.Keys
    ensures CountViews(views) == Census(accounts, refs)
  {
    if views == [] {
      NothingShown(accounts, refs);
    } else {
      var v := views[|views| - 1];
      var fewer := refs - {v.id};
      ShowsFront(views, accounts, refs);
      PagesAgree(views[..|views| - 1], accounts, fewer);
      CensusOneMore(accounts, fewer, v.id);
      assert fewer + {v.id} == refs;
      CountedAlike(Census(accounts, fewer), v.id, accounts[v.id]);
    }
  }
}
