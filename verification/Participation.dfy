/** Discovery results and user edits written to the state: `internal/state/participation.go`. */
module Participation {
  import opened Basics
  import opened Sorting
  import opened Text
  import opened Records
  import opened Discovery
  import opened Transactions
  import opened Edits

  // The closure of `ReconcileAccounts`: everybody absent, then everybody found present.
  method ReconcileAccounts(current: map<string, AccountState>, found: seq<Account>, participating: bool, now: Time)
    returns (accounts: map<string, AccountState>)
    ensures accounts == AccountsEffect(Reconcile(found, participating, now), current)
    ensures forall ref :: Reconciled(current, accounts, found, participating, now, ref)
  {
    accounts := current;
    var left := current.Keys;
    while left != {}
      invariant left <= current.Keys && accounts.Keys == current.Keys
      invariant forall r | r in left :: accounts[r] == current[r]
      invariant forall r | r in current.Keys - left :: accounts[r] == MarkAbsent(current)[r]
      decreases left
    {
      var ref :| ref in left;
      left := left - {ref};
      accounts := accounts[ref := accounts[ref].(profile := accounts[ref].profile.(present := Some(false)))];
    }
    assert accounts == MarkAbsent(current);
    for i := 0 to |found|
      invariant accounts == SeenAll(MarkAbsent(current), found[..i], participating, now)
    {
      var discovered := found[i];
      if discovered.ref !in accounts {
        accounts := accounts[discovered.ref :=
          AccountState(Profile(participating, now, ZERO_TIME, None, Display("", "", "", "")), BLANK, NO_REPORT)];
      }
      var item := accounts[discovered.ref];
      var display := Display(discovered.name, discovered.email, discovered.fileName, discovered.authId);
      accounts := accounts[discovered.ref :=
        item.(profile := item.profile.(present := Some(true), lastSeenAt := now, display := display))];
      assert found[..i + 1][..i] == found[..i];
    }
    assert found[..|found|] == found;
    forall ref
      ensures Reconciled(current, accounts, found, participating, now, ref)
    {
      SeenReconciles(current, found, participating, now, ref);
    }
  }

  // The non-blank references of a request, trimmed.
  function Requested(refs: seq<string>): set<string> {
    set r | r in refs && TrimSpace(r) != "" :: TrimSpace(r)
  }

  predicate Known(accounts: map<string, AccountState>, ref: string) {
    ref in accounts && accounts[ref].IsPresent()
  }

  function KnownIn(accounts: map<string, AccountState>, refs: set<string>): set<string> {
    set r | r in refs && Known(accounts, r)
  }

  method Unique(refs: seq<string>) returns (unique: set<string>)
    ensures unique == Requested(refs)
  {
    unique := {};
    for i := 0 to |refs|
      invariant unique == Requested(refs[..i])
    {
      assert refs[..i + 1] == refs[..i] + [refs[i]];
      var ref := TrimSpace(refs[i]);
      if ref != "" {
        unique := unique + {ref};
      }
    }
    assert refs[..|refs|] == refs;
  }

  // The closure of `SetParticipation`: known references are updated, the others collected.
  method Choose(current: map<string, AccountState>, unique: set<string>, participating: bool, now: Time)
    returns (accounts: map<string, AccountState>, updated: nat, unknown: seq<string>)
    ensures accounts == Chosen(current, unique, participating, now)
    ensures updated == |KnownIn(current, unique)|
    ensures Reports(unknown, current, unique) && updated + |unknown| == |unique|
  {
    accounts, updated, unknown := current, 0, [];
    var done: set<string> := {};
    while unique - done != {}
      invariant done <= unique
      invariant accounts == Chosen(current, done, participating, now)
      invariant updated == |KnownIn(current, done)|
      invariant Reports(unknown, current, done)
      invariant updated + |unknown| == |done|
      decreases unique - done
    {
      var ref :| ref in unique - done;
      CountOneMore(current, done, ref);
      ChooseOneMore(current, done, ref, participating, now);
      ReportOneMore(unknown, current, done, ref);
      done := done + {ref};
      if ref !in accounts || !accounts[ref].IsPresent() {
        unknown := unknown + [ref];
        continue;
      }
      var item := accounts[ref];
      accounts := accounts[ref := item.(profile := item.profile.(participating := participating, participationSetAt := now))];
      updated := updated + 1;
    }
    assert done == unique;
  }

  // Every requested reference is either updated or reported, in order, as unknown.
  method SetParticipation(current: map<string, AccountState>, refs: seq<string>, participating: bool, now: Time)
    returns (accounts: map<string, AccountState>, updated: nat, unknown: seq<string>)
    ensures accounts == AccountsEffect(Participate(Requested(refs), participating, now), current)
    ensures forall ref :: ref in accounts <==> ref in current
    ensures forall ref | ref in current :: accounts[ref] == Edited(current[ref], ref in Requested(refs), participating, now)
    ensures updated == |KnownIn(current, Requested(refs))|
    ensures Chain(Less, unknown) && Reports(unknown, current, Requested(refs))
    ensures updated + |unknown| == |Requested(refs)|
  {
    var unique := Unique(refs);
    accounts, updated, unknown := Choose(current, unique, participating, now);
    ReportSorted(unknown, current, unique);
    unknown := Sort(Less, unknown);
  }

  lemma SortableStrings(s: seq<string>)
    requires Distinct(s)
    ensures Transitive(Less) && Comparable(Less, s)
  {
    LessIsStrict();
    forall i, j | 0 <= i < j < |s|
      ensures Less(s[i], s[j]) || Less(s[j], s[i])
    {
      LessTotal(s[i], s[j]);
    }
  }

  lemma CountOneMore(accounts: map<string, AccountState>, done: set<string>, ref: string)
    requires ref !in done
    ensures |KnownIn(accounts, done + {ref})| == |KnownIn(accounts, done)| + (if Known(accounts, ref) then 1 else 0)
    ensures |done + {ref}| == |done| + 1
  {
    assert KnownIn(accounts, done + {ref}) == KnownIn(accounts, done) + (if Known(accounts, ref) then {ref} else {});
  }

  // The references not known, each once.
  ghost predicate Reports(unknown: seq<string>, accounts: map<string, AccountState>, refs: set<string>) {
    Distinct(unknown) && forall r :: r in unknown <==> r in refs && !Known(accounts, r)
  }

  lemma ReportOneMore(unknown: seq<string>, accounts: map<string, AccountState>, refs: set<string>, ref: string)
    requires Reports(unknown, accounts, refs) && ref !in refs
    ensures if Known(accounts, ref) then Reports(unknown, accounts, refs + {ref})
            else Reports(unknown + [ref], accounts, refs + {ref})
  {
  }

  lemma ReportSorted(unknown: seq<string>, accounts: map<string, AccountState>, refs: set<string>)
    requires Reports(unknown, accounts, refs)
    ensures Reports(Sort(Less, unknown), accounts, refs)
    ensures Chain(Less, Sort(Less, unknown)) && |Sort(Less, unknown)| == |unknown|
  {
    SortableStrings(unknown);
    SortFacts(Less, unknown);
    DistinctPermuted(unknown, Sort(Less, unknown));
  }

  lemma ChooseOneMore(current: map<string, AccountState>, done: set<string>, ref: string, participating: bool, now: Time)
    requires ref !in done
    ensures var before, after := Chosen(current, done, participating, now), Chosen(current, done + {ref}, participating, now);
            && Known(before, ref) == Known(current, ref)
            && (!Known(current, ref) ==> after == before)
            && (Known(current, ref) ==> after == before[ref := before[ref].(profile :=
                  before[ref].profile.(participating := participating, participationSetAt := now))])
  {
  }

  lemma LessIsStrict()
    ensures Transitive(Less) && Irreflexive(Less)
  {
    forall a, b, c | Less(a, b) && Less(b, c)
      ensures Less(a, c)
    {
      LessTransitive(a, b, c);
    }
    forall a
      ensures !Less(a, a)
    {
      LessIrreflexive(a);
    }
  }
}
