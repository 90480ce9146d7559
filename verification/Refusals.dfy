/** What the replies of Consume come to by the end of the visit, and which credits get a tombstone. */
module Refusals {
  import opened Basics
  import opened Records
  import opened Codex
  import opened Transactions
  import opened Protocol
  import opened Invariant
  import opened Preservation
  import opened Theorems
  import opened Resolution
  import opened Rules
  import opened Effects
  import Deadlines
  import Witnesses

  function Tombstones(w: World, ref: string): set<string> {
    GuardOf(w.disk, ref).tombstones.Keys
  }

  // -------------------------------------------------- every reply, at once

  // The place to which a reply leads, and the tombstones as they were.
  predicate Replied(v: World, reply: ConsumeReply, ref: string, p: Attempt, before: set<string>) {
    && !v.pc.Idle? && v.pc.job.item.ref == ref && Tombstones(v, ref) == before
    && match reply
       case Err(_) => v.pc.StoreAmbiguous? && v.pc.attempt == p
       case Ok(NothingToReset) => v.pc.StoreFailure? && v.pc.attempt == p && !v.pc.tombstone
       case Ok(NoCredit) => v.pc.StoreFailure? && v.pc.attempt == p && v.pc.tombstone
       case Ok(_) => (v.pc.ConfirmCredits? || v.pc.ConfirmUsage? || v.pc.StoreSuccess?) && v.pc.attempt == p
  }

  // What a reply comes to: an error leaves the attempt pending and counted, two codes close it as a success, two as
  // a failure; only `no_credit` leaves a tombstone, and only for that credit.
  predicate Settles(v: World, reply: ConsumeReply, ref: string, p: Attempt, before: set<string>) {
    && Tombstones(v, ref) ==
       before + (if reply == Ok(NoCredit) && p.creditId != "" then {Hash("ref", p.creditId)} else {})
    && match reply
       case Err(_) =>
         GuardOf(v.disk, ref).pending == Some(p.(phase := "ambiguous", verificationCount := p.verificationCount + 1))
       case Ok(Reset) => GuardOf(v.disk, ref).pending.None? && p.key in v.audit.successes
       case Ok(AlreadyRedeemed) => GuardOf(v.disk, ref).pending.None? && p.key in v.audit.successes
       case Ok(NothingToReset) => GuardOf(v.disk, ref).pending.None? && p.key in v.audit.failures
       case Ok(NoCredit) => GuardOf(v.disk, ref).pending.None? && p.key in v.audit.failures
  }

  lemma ReplyStarts(w: World, a: Action)
    requires Reached(w) && Enabled(w, a) && w.pc.Spend? && a.Thread?
    ensures Replied(Next(w, a), a.op.code, w.pc.job.item.ref, w.pc.attempt, Tombstones(w, w.pc.job.item.ref))
  {
    ReplyIff(w, a);
  }

  lemma RepliedOthers(w: World, a: Action, reply: ConsumeReply, ref: string, p: Attempt, before: set<string>)
    requires Inv(w) && Enabled(w, a) && Undisturbed(a) && !a.Thread? && Replied(w, reply, ref, p, before)
    ensures Replied(Next(w, a), reply, ref, p, before)
  {
    GuardStep(w, a, ref);
  }

  lemma RepliedReading(w: World, a: Action, reply: ConsumeReply, ref: string, p: Attempt, before: set<string>)
    requires Enabled(w, a) && a.Thread? && !a.op.Update? && Replied(w, reply, ref, p, before)
    ensures Replied(Next(w, a), reply, ref, p, before)
  {
  }

  lemma ErrorStored(w: World, a: Action)
    requires Reached(w) && Enabled(w, a) && Undisturbed(a) && a.Thread? && w.pc.StoreAmbiguous?
    ensures var v, p := Next(w, a), w.pc.attempt; var g := GuardOf(v.disk, w.pc.job.item.ref);
            && v.pc.Idle? && g.tombstones == GuardOf(w.disk, w.pc.job.item.ref).tombstones
            && g.pending == Some(p.(phase := "ambiguous", verificationCount := p.verificationCount + 1))
  {
    OnDisk(w);
    OwnStore(w, a);
  }

  lemma SuccessStored(w: World, a: Action)
    requires Reached(w) && Enabled(w, a) && Undisturbed(a) && a.Thread? && w.pc.StoreSuccess?
    ensures var v := Next(w, a); var g := GuardOf(v.disk, w.pc.job.item.ref);
            && Ending(v.pc) && g.tombstones == GuardOf(w.disk, w.pc.job.item.ref).tombstones
            && g.pending.None? && w.pc.attempt.key in v.audit.successes
  {
    OnDisk(w);
    SuccessEffect(w, a);
  }

  lemma FailureStored(w: World, a: Action)
    requires Reached(w) && Stores(w, a) && w.pc.StoreFailure?
    ensures var v, ref, p := Next(w, a), w.pc.job.item.ref, w.pc.attempt;
            && v.pc.Idle? && GuardOf(v.disk, ref).pending.None? && p.key in v.audit.failures
            && Tombstones(v, ref) ==
               Tombstones(w, ref) + (if w.pc.tombstone && p.creditId != "" then {Hash("ref", p.creditId)} else {})
  {
    OnDisk(w);
    FailureEffect(w, a);
  }

  // The store that ends the reply's own part of the visit.
  lemma RepliedStore(w: World, a: Action, reply: ConsumeReply, ref: string, p: Attempt, before: set<string>)
    requires Reached(w) && Enabled(w, a) && Undisturbed(a) && a.Thread? && a.op.Update?
    requires Replied(w, reply, ref, p, before)
    ensures Settles(Next(w, a), reply, ref, p, before) && Ending(Next(w, a).pc)
  {
    if w.pc.StoreFailure? {
      FailureStored(w, a);
    } else if w.pc.StoreSuccess? {
      SuccessStored(w, a);
    } else {
      ErrorStored(w, a);
    }
  }

  lemma SettlesStep(w: World, a: Action, reply: ConsumeReply, ref: string, p: Attempt, before: set<string>)
    requires Inv(w) && Enabled(w, a) && Ending(w.pc) && (w.pc.Idle? ==> !a.Thread?)
    requires Settles(w, reply, ref, p, before)
    ensures Settles(Next(w, a), reply, ref, p, before) && Ending(Next(w, a).pc)
  {
    EndingStep(w, a);
    EndingKeepsPending(w, a, ref);
    GuardStep(w, a, ref);
    Deadlines.AuditGrows(w, a);
  }

  lemma {:induction false} SettlesRun(w: World, a: Action, rest: seq<Action>)
    requires Reached(w) && Enabled(w, a) && w.pc.Spend? && a.Thread?
    requires Legal(Next(w, a), rest) && OneVisit(Next(w, a), rest) && AllUndisturbed(rest)
    ensures var v, ref, before := Exec(Next(w, a), rest), w.pc.job.item.ref, Tombstones(w, w.pc.job.item.ref);
            || Replied(v, a.op.code, ref, w.pc.attempt, before)
            || (Settles(v, a.op.code, ref, w.pc.attempt, before) && Ending(v.pc))
  {
    if rest == [] {
      ReplyStarts(w, a);
    } else {
      var front, b := rest[..|rest| - 1], rest[|rest| - 1];
      assert b in rest && forall c | c in front :: c in rest;
      SettlesRun(w, a, front);
      Witnesses.Extend(w, [], a);
      Witnesses.ReachedOn(w, [] + [a]);
      Witnesses.ReachedOn(Next(w, a), front);
      SettlesNext(Exec(Next(w, a), front), b, a.op.code, w.pc.job.item.ref, w.pc.attempt, Tombstones(w, w.pc.job.item.ref));
    }
  }

  lemma SettlesNext(u: World, b: Action, reply: ConsumeReply, ref: string, p: Attempt, before: set<string>)
    requires Reached(u) && Enabled(u, b) && Undisturbed(b) && (u.pc.Idle? ==> !b.Thread?)
    requires Replied(u, reply, ref, p, before) || (Settles(u, reply, ref, p, before) && Ending(u.pc))
    ensures Replied(Next(u, b), reply, ref, p, before) || (Settles(Next(u, b), reply, ref, p, before) && Ending(Next(u, b).pc))
  {
    Reachable(u);
    if Settles(u, reply, ref, p, before) && Ending(u.pc) {
      SettlesStep(u, b, reply, ref, p, before);
    } else if !b.Thread? {
      RepliedOthers(u, b, reply, ref, p, before);
    } else if b.op.Update? {
      RepliedStore(u, b, reply, ref, p, before);
    } else {
      RepliedReading(u, b, reply, ref, p, before);
    }
  }

  // What every reply of Consume comes to when its visit is not disturbed.
  lemma RepliesSettle(w: World, a: Action, rest: seq<Action>)
    requires Reached(w) && Enabled(w, a) && w.pc.Spend? && a.Thread?
    requires Legal(Next(w, a), rest) && OneVisit(Next(w, a), rest) && AllUndisturbed(rest)
    requires Exec(Next(w, a), rest).pc.Idle?
    ensures Settles(Exec(Next(w, a), rest), a.op.code, w.pc.job.item.ref, w.pc.attempt, Tombstones(w, w.pc.job.item.ref))
  {
    SettlesRun(w, a, rest);
  }

  // The refusal of a credit, written in whatever way, leaves its tombstone.
  lemma RefusalTombstoned(w: World, a: Action, b: Action)
    requires Reached(w) && Enabled(w, a) && w.pc.Spend? && a.Thread? && a.op.code == Ok(NoCredit) && w.pc.attempt.creditId != ""
    requires Stores(Next(w, a), b)
    ensures Hash("ref", w.pc.attempt.creditId) in GuardOf(Next(Next(w, a), b).disk, w.pc.job.item.ref).tombstones
  {
    ReplyIff(w, a);
    Witnesses.Extend(w, [], a);
    Witnesses.ReachedOn(w, [] + [a]);
    FailureStored(Next(w, a), b);
  }

  // A credit that was refused for an account, with the refusal written, is never attempted for it again.
  lemma RefusedNeverAgain(w: World, a: Action, rest: seq<Action>, more: seq<Action>, b: Action)
    requires Reached(w) && Enabled(w, a) && w.pc.Spend? && a.Thread? && a.op.code == Ok(NoCredit) && w.pc.attempt.creditId != ""
    requires Legal(Next(w, a), rest) && OneVisit(Next(w, a), rest) && AllUndisturbed(rest)
    requires Exec(Next(w, a), rest).pc.Idle?
    requires var v := Exec(Next(w, a), rest);
      Legal(v, more) && Enabled(Exec(v, more), b) && Starts(Exec(v, more), Next(Exec(v, more), b), w.pc.job.item.ref)
    ensures var v := Exec(Next(w, a), rest);
            GuardOf(Next(Exec(v, more), b).disk, w.pc.job.item.ref).pending.value.creditId != w.pc.attempt.creditId
  {
    RepliesSettle(w, a, rest);
    Witnesses.Extend(w, [], a);
    Witnesses.ReachedOn(w, [] + [a]);
    Witnesses.ReachedOn(Next(w, a), rest);
    Reachable(Exec(Next(w, a), rest));
    Deadlines.TombstonedNeverTried(Exec(Next(w, a), rest), more, b, w.pc.job.item.ref, w.pc.attempt.creditId);
  }

  // ------------------------------------------------- no other tombstones

  // The references of the credits that were refused for an account.
  function Refused(w: World, run: seq<Action>, ref: string): set<string>
    requires Legal(w, run)
  {
    if run == [] then {}
    else Refused(w, run[..|run| - 1], ref) + RefusedBy(Exec(w, run[..|run| - 1]), run[|run| - 1], ref)
  }

  function RefusedBy(w: World, a: Action, ref: string): set<string> {
    if a.Thread? && a.op.Consume? && a.op.code == Ok(NoCredit) && w.pc.Spend? && w.pc.job.item.ref == ref
    then {Hash("ref", w.pc.attempt.creditId)} else {}
  }

  // The tombstones of the account, and the one about to be written, are among these.
  predicate Within(w: World, ref: string, all: set<string>) {
    && Tombstones(w, ref) <= all
    && (w.pc.StoreFailure? && w.pc.tombstone && w.pc.job.item.ref == ref ==> Hash("ref", w.pc.attempt.creditId) in all)
  }

  lemma TombstoneSource(w: World, a: Action, ref: string, all: set<string>)
    requires Enabled(w, a) && Within(w, ref, all)
    ensures var pc := Next(w, a).pc;
            pc.StoreFailure? && pc.tombstone && pc.job.item.ref == ref ==>
              Hash("ref", pc.attempt.creditId) in all + RefusedBy(w, a, ref)
  {
  }

  lemma WithinStep(w: World, a: Action, ref: string, all: set<string>)
    requires Reached(w) && Enabled(w, a) && Within(w, ref, all)
    ensures Within(Next(w, a), ref, all + RefusedBy(w, a, ref))
  {
    Reachable(w);
    TombstoneSource(w, a, ref, all);
    GuardStep(w, a, ref);
  }

  lemma {:induction false} WithinRun(start: World, run: seq<Action>, ref: string)
    requires Initial(start) && Legal(start, run)
    ensures Within(Exec(start, run), ref, Refused(start, run, ref))
  {
    if run != [] {
      var front := run[..|run| - 1];
      WithinRun(start, front, ref);
      EndOfRun(start, front);
      WithinStep(Exec(start, front), run[|run| - 1], ref, Refused(start, front, ref));
    }
  }

  // Only credits the service refused for an account ever get a tombstone there.
  lemma OnlyRefusedCredits(start: World, run: seq<Action>, ref: string)
    requires Initial(start) && Legal(start, run)
    ensures Tombstones(Exec(start, run), ref) <= Refused(start, run, ref)
  {
    WithinRun(start, run, ref);
  }
}
