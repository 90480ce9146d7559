/** What discovery and the user write to an account, account by account: the reference for `Participation`. */
module Edits {
  import opened Basics
  import opened Records
  import opened Discovery
  import opened Transactions

  predicate IsFound(found: seq<Account>, ref: string) {
    exists a | a in found :: a.ref == ref
  }

  // The display of the last account found under this reference.
  predicate ShownAs(found: seq<Account>, ref: string, d: Display) {
    exists i :: 0 <= i < |found| && found[i].ref == ref && (forall j | i < j < |found| :: found[j].ref != ref)
                && d == Display(found[i].name, found[i].email, found[i].fileName, found[i].authId)
  }

  // A record that was never shown absent counts as present.
  lemma PresentIff(item: AccountState)
    ensures item.IsPresent() <==> item.profile.present != Some(false)
  {
  }

  // One more discovery after the others.
  lemma ShownNext(found: seq<Account>, last: Account, ref: string, d: Display)
    ensures ShownAs(found + [last], ref, d) <==>
            if last.ref == ref then d == Display(last.name, last.email, last.fileName, last.authId) else ShownAs(found, ref, d)
  {
    var all := found + [last];
    assert forall i | 0 <= i < |found| :: all[i] == found[i];
    assert all[|found|] == last;
  }

  // What holds of an account after everybody was marked absent and the accounts `found` were seen.
  predicate Reconciled(before: map<string, AccountState>, after: map<string, AccountState>, found: seq<Account>,
                       participating: bool, now: Time, ref: string) {
    && (ref in after <==> ref in before || IsFound(found, ref))
    && (IsFound(found, ref) ==>
          && after[ref].profile.present == Some(true) && after[ref].profile.lastSeenAt == now
          && ShownAs(found, ref, after[ref].profile.display))
    && (IsFound(found, ref) && ref in before ==>
          && after[ref].guard == before[ref].guard && after[ref].report == before[ref].report
          && after[ref].profile.participating == before[ref].profile.participating
          && after[ref].profile.participationSetAt == before[ref].profile.participationSetAt)
    && (IsFound(found, ref) && ref !in before ==>
          && after[ref].profile.participating == participating && after[ref].profile.participationSetAt == now
          && after[ref].guard == Guard(None, map[], None, None, None)
          && after[ref].report == Report("", "", 0, ZERO_TIME, 0.0, false, ZERO_TIME, ""))
    && (!IsFound(found, ref) && ref in before ==>
          after[ref] == before[ref].(profile := before[ref].profile.(present := Some(false))))
  }

  lemma {:induction false} SeenReconciles(before: map<string, AccountState>, found: seq<Account>, participating: bool, now: Time,
                                          ref: string)
    ensures Reconciled(before, SeenAll(MarkAbsent(before), found, participating, now), found, participating, now, ref)
  {
    if found != [] {
      var front, last := found[..|found| - 1], found[|found| - 1];
      assert found == front + [last];
      SeenReconciles(before, front, participating, now, ref);
      var after := SeenAll(MarkAbsent(before), found, participating, now);
      assert IsFound(found, ref) <==> IsFound(front, ref) || last.ref == ref;
      if ref in after {
        ShownNext(front, last, ref, after[ref].profile.display);
      }
    }
  }

  // A discovery presents exactly the accounts found. New ones take part as configured and start with nothing on
  // record; known ones keep all but their presence, the instant they were seen, and their display; the others
  // keep all but their presence.
  lemma ReconcileIff(found: seq<Account>, participating: bool, now: Time, s: State, ref: string)
    ensures var t := Apply(Reconcile(found, participating, now), s);
            && Reconciled(s.accounts, t.accounts, found, participating, now, ref)
            && t.management == s.management && t.lastScan == s.lastScan && t.logs == s.logs
  {
    SeenReconciles(s.accounts, found, participating, now, ref);
  }

  // An account after an edit that may have named it.
  function Edited(item: AccountState, named: bool, participating: bool, now: Time): AccountState {
    if named && item.profile.present != Some(false)
    then item.(profile := item.profile.(participating := participating, participationSetAt := now)) else item
  }

  // An edit by the user sets the participation of the accounts named that are present, and when it was set.
  lemma ParticipateIff(refs: set<string>, participating: bool, now: Time, s: State, ref: string)
    ensures var t := Apply(Participate(refs, participating, now), s);
            && (ref in t.accounts <==> ref in s.accounts)
            && (ref in s.accounts ==>
                  t.accounts[ref] == Edited(s.accounts[ref], ref in refs, participating, now))
            && t.management == s.management && t.lastScan == s.lastScan && t.logs == s.logs
  {
  }

  // The end of a scan is the latest scan on record and is logged with its length in whole milliseconds.
  lemma FinishIff(sum: ScanSummary, s: State)
    ensures var t := Apply(Finish(sum), s);
            && t.accounts == s.accounts && t.management == s.management && t.lastScan == sum
            && t.logs != []
            && var e := t.logs[|t.logs| - 1];
               && e == LogEntry(sum.finishedAt, "scan_completed", trigger := sum.trigger, durationMs := e.durationMs,
                                errorCode := sum.error)
               && (sum.startedAt <= sum.finishedAt ==>
                     e.durationMs * 1_000_000 <= sum.finishedAt - sum.startedAt < (e.durationMs + 1) * 1_000_000)
  {
  }

  // A plain entry is appended and changes nothing else.
  lemma NoteIff(e: LogEntry, s: State)
    ensures var t := Apply(Note(e), s);
            t == s.(logs := t.logs) && t.logs != [] && t.logs[|t.logs| - 1] == e && |t.logs| == Min(|s.logs| + 1, 500)
  {
  }
}
