/** Finding the accounts the host holds credentials for: `internal/account/discovery.go`. */
module Discovery {
  import opened Basics
  import opened Sorting
  import opened Text
  import opened Records

  datatype Account = Account(
    ref: string,
    authId: string,
    authIndex: string,
    accountId: string,
    accessToken: string,
    name: string,
    email: string,
    fileName: string,
    disabled: bool)

  datatype AuthEntry = AuthEntry(
    id: string,
    authIndex: string,
    name: string,
    heading: string,
    email: string,
    path: string,
    provider: string,
    kind: string,
    source: string,
    disabled: bool,
    unavailable: bool,
    runtimeOnly: bool)

  // The contents of an auth file, with the account and mail address its tokens carry.
  datatype Credential = Credential(
    kind: string,
    accountId: string,
    accessToken: string,
    email: string,
    disabled: bool,
    tokenAccountId: string,
    tokenEmail: string)

  // What the host returns for an auth index; no credential when it is not readable JSON.
  datatype AuthFile = AuthFile(name: string, credential: Option<Credential>)

  // Upper-case ASCII letters folded; no other character folds to a letter of the words compared here.
  function Fold(s: string): string {
    if s == "" then ""
    else [if 'A' <= s[0] <= 'Z' then s[0] - 'A' + 'a' else s[0]] + Fold(s[1..])
  }

  predicate IsWord(s: string, word: string) {
    Fold(TrimSpace(s)) == word
  }

  function FirstNonEmpty(values: seq<string>): string {
    if values == [] then ""
    else if TrimSpace(values[0]) != "" then TrimSpace(values[0])
    else FirstNonEmpty(values[1..])
  }

  predicate IsCodexFile(e: AuthEntry) {
    var provider := if TrimSpace(e.provider) == "" then e.kind else e.provider;
    && IsWord(provider, "codex") && !e.runtimeOnly
    && (TrimSpace(e.source) == "" || IsWord(e.source, "file") || (IsWord(e.source, "memory") && TrimSpace(e.path) != ""))
  }

  function StableAuthId(e: AuthEntry): string {
    if TrimSpace(e.id) != "" then TrimSpace(e.id)
    else if TrimSpace(e.authIndex) != "" then TrimSpace(e.authIndex)
    else Hash("auth", e.name + "\0" + e.path + "\0" + e.email)
  }

  // The account an entry offers, if it offers a usable one.
  function Candidate(e: AuthEntry, auths: map<string, AuthFile>): Option<Account> {
    if !IsCodexFile(e) || TrimSpace(e.authIndex) == "" || e.authIndex !in auths then None
    else
      var file := auths[e.authIndex];
      if file.credential.None? then None
      else
        var c := file.credential.value;
        var accountId := FirstNonEmpty([c.accountId, c.tokenAccountId]);
        if !IsWord(c.kind, "codex") || TrimSpace(c.accessToken) == "" || accountId == "" then None
        else Some(Account(Hash("account", accountId), StableAuthId(e), TrimSpace(e.authIndex), accountId,
                          TrimSpace(c.accessToken),
                          FirstNonEmpty([e.heading, e.name, c.email, c.tokenEmail, "Codex 账号"]),
                          FirstNonEmpty([c.email, e.email, c.tokenEmail]), FirstNonEmpty([file.name, e.name]),
                          e.disabled || e.unavailable || c.disabled))
  }

  function CandidateList(e: AuthEntry, auths: map<string, AuthFile>): seq<Account> {
    var c := Candidate(e, auths);
    if c.Some? then [c.value] else []
  }

  function Candidates(entries: seq<AuthEntry>, auths: map<string, AuthFile>): seq<Account> {
    Collect(e => CandidateList(e, auths), entries)
  }

  // Enabled accounts first, then the smaller auth index.
  predicate Prefer(a: Account, b: Account) {
    if a.disabled != b.disabled then !a.disabled else Less(a.authIndex, b.authIndex)
  }

  predicate Best(a: Account, all: seq<Account>) {
    a in all && forall b | b in all && b.accountId == a.accountId :: !Prefer(b, a)
  }

  predicate ByRef(a: Account, b: Account) {
    Less(a.ref, b.ref)
  }

  // One account for every usable account ID, a best one, in the order of the references.
  ghost predicate Canonical(accounts: seq<Account>, all: seq<Account>) {
    && Chain(ByRef, accounts)
    && (forall a | a in accounts :: Best(a, all))
    && (forall c | c in all :: Covers(accounts, c.accountId))
  }

  predicate Covers(accounts: seq<Account>, accountId: string) {
    exists a | a in accounts :: a.accountId == accountId
  }

  predicate Keyed(m: map<string, Account>, all: seq<Account>) {
    && (forall id | id in m :: m[id].accountId == id && Best(m[id], all))
    && (forall c | c in all :: c.accountId in m)
  }

  method Discover(entries: seq<AuthEntry>, auths: map<string, AuthFile>) returns (accounts: seq<Account>)
    ensures Canonical(accounts, Candidates(entries, auths))
    ensures Discovered(accounts, entries, auths)
  {
    var byAccountId: map<string, Account> := map[];
    for i := 0 to |entries|
      invariant Keyed(byAccountId, Candidates(entries[..i], auths))
      invariant forall c | c in Candidates(entries[..i], auths) :: c.ref == Hash("account", c.accountId)
    {
      CollectNext(e => CandidateList(e, auths), entries, i);
      var candidate := Candidate(entries[i], auths);
      if candidate.None? {
        assert Candidates(entries[..i + 1], auths) == Candidates(entries[..i], auths);
        continue;
      }
      var c := candidate.value;
      KeepBest(byAccountId, Candidates(entries[..i], auths), c);
      if c.accountId !in byAccountId || Prefer(c, byAccountId[c.accountId]) {
        byAccountId := byAccountId[c.accountId := c];
      }
    }
    assert entries[..|entries|] == entries;
    ghost var all := Candidates(entries, auths);
    accounts := Listed(byAccountId);
    RefsComparable(accounts);
    SortFacts(ByRef, accounts);
    accounts := Sort(ByRef, accounts);
    forall c | c in all
      ensures Covers(accounts, c.accountId)
    {
      assert byAccountId[c.accountId] in accounts;
    }
    DiscoveredIff(entries, auths, accounts);
  }

  // The values of the map, in whatever order the map is walked.
  method Listed(byAccountId: map<string, Account>) returns (accounts: seq<Account>)
    requires forall id | id in byAccountId :: byAccountId[id].accountId == id
    ensures forall a | a in accounts :: a.accountId in byAccountId && a == byAccountId[a.accountId]
    ensures forall id | id in byAccountId :: byAccountId[id] in accounts
    ensures forall i, j | 0 <= i < j < |accounts| :: accounts[i].accountId != accounts[j].accountId
  {
    accounts := [];
    var left := byAccountId.Keys;
    while left != {}
      invariant left <= byAccountId.Keys
      invariant forall a | a in accounts :: a.accountId in byAccountId.Keys - left && a == byAccountId[a.accountId]
      invariant forall id | id in byAccountId.Keys - left :: byAccountId[id] in accounts
      invariant forall i, j | 0 <= i < j < |accounts| :: accounts[i].accountId != accounts[j].accountId
      decreases left
    {
      var id :| id in left;
      left := left - {id};
      accounts := accounts + [byAccountId[id]];
    }
  }

  // Looking at one more candidate keeps a best one per account ID.
  lemma KeepBest(m: map<string, Account>, all: seq<Account>, c: Account)
    requires Keyed(m, all)
    ensures c.accountId !in m || Prefer(c, m[c.accountId]) ==> Keyed(m[c.accountId := c], all + [c])
    ensures c.accountId in m && !Prefer(c, m[c.accountId]) ==> Keyed(m, all + [c])
  {
    LessIrreflexive(c.authIndex);
    forall b | b in all && c.accountId in m && b.accountId == c.accountId && Prefer(c, m[c.accountId])
      ensures !Prefer(b, c)
    {
      if Prefer(b, c) {
        PreferTransitive(b, c, m[c.accountId]);
      }
    }
    assert c.accountId !in m ==> forall b | b in all :: b.accountId != c.accountId;
  }

  lemma PreferTransitive(a: Account, b: Account, c: Account)
    requires Prefer(a, b) && Prefer(b, c)
    ensures Prefer(a, c)
  {
    if a.disabled == b.disabled == c.disabled {
      LessTransitive(a.authIndex, b.authIndex, c.authIndex);
    }
  }

  lemma ByRefIsStrict()
    ensures Transitive(ByRef) && Irreflexive(ByRef)
  {
    forall a, b, c | ByRef(a, b) && ByRef(b, c)
      ensures ByRef(a, c)
    {
      LessTransitive(a.ref, b.ref, c.ref);
    }
    forall a: Account
      ensures !ByRef(a, a)
    {
      LessIrreflexive(a.ref);
    }
  }

  lemma RefsComparable(accounts: seq<Account>)
    requires forall a | a in accounts :: a.ref == Hash("account", a.accountId)
    requires forall i, j | 0 <= i < j < |accounts| :: accounts[i].accountId != accounts[j].accountId
    ensures Transitive(ByRef) && Comparable(ByRef, accounts)
  {
    ByRefIsStrict();
    forall i, j | 0 <= i < j < |accounts|
      ensures ByRef(accounts[i], accounts[j]) || ByRef(accounts[j], accounts[i])
    {
      HashInjective("account", accounts[i].accountId, accounts[j].accountId);
      LessTotal(accounts[i].ref, accounts[j].ref);
    }
  }

  lemma HashInjective(namespace: string, a: string, b: string)
    ensures Hash(namespace, a) == Hash(namespace, b) ==> a == b
  {
    assert Hash(namespace, a)[|namespace| + 1..] == a;
    assert Hash(namespace, b)[|namespace| + 1..] == b;
  }

  // Candidates for the same account are told apart by their auth index.
  predicate IndexesDistinct(all: seq<Account>) {
    forall a, b | a in all && b in all && a.accountId == b.accountId && a.authIndex == b.authIndex :: a == b
  }

  // The host may list its files in any order: discovery returns the same accounts in the same order.
  lemma DiscoveryOrderIrrelevant(entries: seq<AuthEntry>, other: seq<AuthEntry>, auths: map<string, AuthFile>,
                                 found: seq<Account>, again: seq<Account>)
    requires multiset(entries) == multiset(other) && IndexesDistinct(Candidates(entries, auths))
    requires Canonical(found, Candidates(entries, auths)) && Canonical(again, Candidates(other, auths))
    ensures found == again
  {
    CollectPermuted(e => CandidateList(e, auths), entries, other);
    CanonicalUnique(found, again, Candidates(entries, auths), Candidates(other, auths));
  }

  lemma CanonicalUnique(found: seq<Account>, again: seq<Account>, all: seq<Account>, same: seq<Account>)
    requires multiset(all) == multiset(same) && IndexesDistinct(all) && Canonical(found, all) && Canonical(again, same)
    ensures found == again
  {
    DistinctPermuted(all, same);
    forall x
      ensures x in found <==> x in again
    {
      if x in found {
        BestIn(x, again, all, same);
      }
      if x in again {
        BestIn(x, found, same, all);
      }
    }
    ByRefIsStrict();
    ChainUnique(ByRef, found, again);
  }

  lemma BestIn(x: Account, accounts: seq<Account>, all: seq<Account>, same: seq<Account>)
    requires multiset(all) == multiset(same)
    requires IndexesDistinct(same) && Best(x, all) && Canonical(accounts, same)
    ensures x in accounts
  {
    assert x in multiset(all) && x in same;
    assert Covers(accounts, x.accountId);
    var a :| a in accounts && a.accountId == x.accountId;
    assert Best(a, same) && a in multiset(same) && a in all;
    BothBest(a, x);
  }

  lemma BothBest(a: Account, b: Account)
    requires !Prefer(a, b) && !Prefer(b, a)
    ensures a.authIndex == b.authIndex
  {
    LessTotal(a.authIndex, b.authIndex);
  }

  lemma {:induction false} CandidateRefs(entries: seq<AuthEntry>, auths: map<string, AuthFile>)
    ensures forall c | c in Candidates(entries, auths) :: c.ref == Hash("account", c.accountId)
  {
    if entries != [] {
      CandidateRefs(entries[..|entries| - 1], auths);
    }
  }

  // Exactly one account per usable account ID.
  lemma OnePerAccountId(entries: seq<AuthEntry>, auths: map<string, AuthFile>, found: seq<Account>, i: nat, j: nat)
    requires Canonical(found, Candidates(entries, auths))
    requires i < |found| && j < |found| && found[i].accountId == found[j].accountId
    ensures i == j
  {
    CandidateRefs(entries, auths);
    assert Best(found[i], Candidates(entries, auths)) && Best(found[j], Candidates(entries, auths));
    LessIrreflexive(found[i].ref);
    assert i < j ==> ByRef(found[i], found[j]);
    assert j < i ==> ByRef(found[j], found[i]);
  }

  // ------------------------------------------------------------ reference

  // The text says the word, in whatever case and with whatever space around it.
  predicate Says(s: string, word: string) {
    var t := TrimSpace(s);
    |t| == |word| && forall i | 0 <= i < |t| :: t[i] == word[i] || t[i] as int == word[i] as int - 32
  }

  predicate LowerCase(word: string) {
    forall i | 0 <= i < |word| :: 'a' <= word[i] <= 'z'
  }

  lemma {:induction false} FoldAt(s: string)
    ensures |Fold(s)| == |s|
    ensures forall i | 0 <= i < |s| :: Fold(s)[i] == if 'A' <= s[i] <= 'Z' then s[i] - 'A' + 'a' else s[i]
  {
    if s != "" {
      FoldAt(s[1..]);
    }
  }

  lemma SaysIff(s: string, word: string)
    requires LowerCase(word)
    ensures IsWord(s, word) <==> Says(s, word)
  {
    FoldAt(TrimSpace(s));
  }

  // The first `n` values are blank.
  predicate Blank(values: seq<string>, n: nat)
    requires n <= |values|
  {
    forall i | 0 <= i < n :: TrimSpace(values[i]) == ""
  }

  // The first of the values that is not blank, trimmed; "" if all are blank.
  predicate FirstOf(values: seq<string>, r: string) {
    if r == "" then Blank(values, |values|)
    else exists i :: 0 <= i < |values| && Blank(values, i) && r == TrimSpace(values[i])
  }

  lemma BlankBefore(values: seq<string>, blank: string, n: nat)
    requires n <= |values| && TrimSpace(blank) == "" && Blank(values, n)
    ensures Blank([blank] + values, n + 1)
  {
    var all := [blank] + values;
    forall i | 0 <= i < n + 1
      ensures TrimSpace(all[i]) == ""
    {
      if i > 0 {
        assert all[i] == values[i - 1];
      }
    }
  }

  lemma FirstOfBlank(values: seq<string>, blank: string, r: string)
    requires TrimSpace(blank) == "" && FirstOf(values, r)
    ensures FirstOf([blank] + values, r)
  {
    if r == "" {
      BlankBefore(values, blank, |values|);
    } else {
      var i :| 0 <= i < |values| && Blank(values, i) && r == TrimSpace(values[i]);
      BlankBefore(values, blank, i);
      assert ([blank] + values)[i + 1] == values[i];
    }
  }

  lemma {:induction false} FirstIsFirst(values: seq<string>)
    ensures FirstOf(values, FirstNonEmpty(values))
  {
    if values != [] {
      if TrimSpace(values[0]) == "" {
        FirstIsFirst(values[1..]);
        assert values == [values[0]] + values[1..];
        FirstOfBlank(values[1..], values[0], FirstNonEmpty(values[1..]));
      } else {
        assert FirstNonEmpty(values) == TrimSpace(values[0]);
      }
    }
  }

  lemma FirstOfUnique(values: seq<string>, r: string, q: string)
    requires FirstOf(values, r) && FirstOf(values, q)
    ensures r == q
  {
  }

  lemma FirstOfIff(values: seq<string>, r: string)
    ensures FirstNonEmpty(values) == r <==> FirstOf(values, r)
  {
    FirstIsFirst(values);
    if FirstOf(values, r) {
      FirstOfUnique(values, r, FirstNonEmpty(values));
    }
  }

  // The file is one of the provider's, kept on disk, and not made up at run time.
  predicate Eligible(e: AuthEntry) {
    && (if TrimSpace(e.provider) != "" then Says(e.provider, "codex") else Says(e.kind, "codex"))
    && !e.runtimeOnly && TrimSpace(e.authIndex) != ""
    && (TrimSpace(e.source) == "" || Says(e.source, "file") || (Says(e.source, "memory") && TrimSpace(e.path) != ""))
  }

  // The entry, with the file under its index, offers exactly this account.
  predicate Offers(e: AuthEntry, auths: map<string, AuthFile>, a: Account) {
    && Eligible(e) && e.authIndex in auths && auths[e.authIndex].credential.Some?
    && var file, c := auths[e.authIndex], auths[e.authIndex].credential.value;
       && Says(c.kind, "codex") && TrimSpace(c.accessToken) != "" && a.accessToken == TrimSpace(c.accessToken)
       && a.accountId == (if TrimSpace(c.accountId) != "" then TrimSpace(c.accountId) else TrimSpace(c.tokenAccountId))
       && a.accountId != "" && a.ref == Hash("account", a.accountId)
       && a.authIndex == TrimSpace(e.authIndex)
       && a.authId == (if TrimSpace(e.id) != "" then TrimSpace(e.id) else TrimSpace(e.authIndex))
       && (a.disabled <==> e.disabled || e.unavailable || c.disabled)
       && FirstOf([e.heading, e.name, c.email, c.tokenEmail, "Codex 账号"], a.name)
       && FirstOf([c.email, e.email, c.tokenEmail], a.email)
       && FirstOf([file.name, e.name], a.fileName)
  }

  lemma EligibleIff(e: AuthEntry)
    ensures Eligible(e) <==> IsCodexFile(e) && TrimSpace(e.authIndex) != ""
  {
    SaysIff(e.provider, "codex");
    SaysIff(e.kind, "codex");
    SaysIff(e.source, "file");
    SaysIff(e.source, "memory");
  }

  lemma OffersIff(e: AuthEntry, auths: map<string, AuthFile>, a: Account)
    ensures Candidate(e, auths) == Some(a) <==> Offers(e, auths, a)
  {
    EligibleIff(e);
    if e.authIndex in auths && auths[e.authIndex].credential.Some? {
      var file, c := auths[e.authIndex], auths[e.authIndex].credential.value;
      SaysIff(c.kind, "codex");
      AccountIdIs(c);
      FirstOfIff([e.heading, e.name, c.email, c.tokenEmail, "Codex 账号"], a.name);
      FirstOfIff([c.email, e.email, c.tokenEmail], a.email);
      FirstOfIff([file.name, e.name], a.fileName);
    }
  }

  lemma AccountIdIs(c: Credential)
    ensures FirstNonEmpty([c.accountId, c.tokenAccountId])
            == if TrimSpace(c.accountId) != "" then TrimSpace(c.accountId) else TrimSpace(c.tokenAccountId)
  {
    var both, last := [c.accountId, c.tokenAccountId], [c.tokenAccountId];
    assert both[1..] == last && last[1..] == [];
    assert FirstNonEmpty(last) == TrimSpace(c.tokenAccountId);
  }

  lemma {:induction false} CandidatesIff(entries: seq<AuthEntry>, auths: map<string, AuthFile>, a: Account)
    ensures a in Candidates(entries, auths) <==> exists e | e in entries :: Offers(e, auths, a)
  {
    if entries != [] {
      var front, last := entries[..|entries| - 1], entries[|entries| - 1];
      assert entries == front + [last];
      CandidatesIff(front, auths, a);
      OffersIff(last, auths, a);
    }
  }

  // Every account discovered is offered by some entry; every account offered is there, by itself or by one with the
  // same account ID that goes before it: an enabled one before a disabled one, then the smaller index.
  ghost predicate Discovered(found: seq<Account>, entries: seq<AuthEntry>, auths: map<string, AuthFile>) {
    && (forall a | a in found :: exists e | e in entries :: Offers(e, auths, a))
    && (forall e, b | e in entries && Offers(e, auths, b) ::
          exists a | a in found :: a.accountId == b.accountId && GoesBefore(a, b))
    && (forall i, j | 0 <= i < j < |found| :: Less(found[i].ref, found[j].ref))
  }

  lemma DiscoveredIff(entries: seq<AuthEntry>, auths: map<string, AuthFile>, found: seq<Account>)
    requires Canonical(found, Candidates(entries, auths))
    ensures Discovered(found, entries, auths)
  {
    var all := Candidates(entries, auths);
    forall a | a in found
      ensures exists e | e in entries :: Offers(e, auths, a)
    {
      assert Best(a, all);
      CandidatesIff(entries, auths, a);
    }
    forall e, b | e in entries && Offers(e, auths, b)
      ensures exists a | a in found :: a.accountId == b.accountId && GoesBefore(a, b)
    {
      CandidatesIff(entries, auths, b);
      assert Covers(found, b.accountId);
      var a :| a in found && a.accountId == b.accountId;
      assert Best(a, all) && !Prefer(b, a);
    }
    assert forall i, j | 0 <= i < j < |found| :: ByRef(found[i], found[j]);
  }

  predicate GoesBefore(a: Account, b: Account) {
    (a.disabled ==> b.disabled) && (a.disabled == b.disabled ==> !Less(b.authIndex, a.authIndex))
  }
}
