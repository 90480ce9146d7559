/** When the rule says that a credit is to be spent, an attempt for it is put on disk. */
module Spending {
  import opened Basics
  import opened Records
  import opened Codex
  import opened CreditRules
  import opened Transactions
  import opened Protocol
  import opened Invariant
  import opened Preservation
  import opened Theorems
  import opened Rules
  import opened Effects
  import Deadlines
  import Witnesses
  import Fingerprint

  // The step does not stand in the way of spending the credit `c` on the usage `u`: the readings say so, both times;
  // there is a key; the attempt is written; and nobody stops the engine, ends the process or edits participation.
  predicate Favours(w: World, a: Action, u: Usage, c: Credit) {
    match a
    case Stop => false
    case Restart => false
    case Edit(tx, _) => !tx.Participate?
    case Thread(_, GetUsage(reply)) => w.pc.AskUsage? ==> reply == Ok(u)
    case Thread(_, GetCredits(reply)) =>
      && (w.pc.AskCredits? ==>
            reply.Ok? && Foremost(c, reply.value.available, w.pc.job.snap.guard.tombstones))
      && (w.pc.Recheck? ==>
            && reply.Ok?
            && (exists d | d in reply.value.available ::
                  d.id == c.id && Foremost(d, reply.value.available, w.pc.job.snap.guard.tombstones))
            && NewPrint(w.pc.job, c, u, reply.value.availableCount))
    case Thread(_, Check(go, key)) => w.pc.Decide? ==> go && key.Some?
    case Thread(_, Update(_, _, outcome)) => w.pc.StoreAttempt? ==> outcome != Lost
    case _ => true
  }

  // The last failure on record, if there is one, had another fingerprint.
  predicate NewPrint(job: Job, c: Credit, u: Usage, count: int) {
    job.snap.guard.backoff.Some? ==>
      job.snap.guard.backoff.value.fingerprint != Fingerprint.Of(job.item.ref, c.ref, u, count)
  }

  predicate AllFavour(w: World, run: seq<Action>, u: Usage, c: Credit)
    requires Legal(w, run)
  {
    run == [] || (AllFavour(w, run[..|run| - 1], u, c) && Favours(Exec(w, run[..|run| - 1]), run[|run| - 1], u, c))
  }

  // Nothing keeps the account of the visit from a new attempt.
  predicate Unhindered(w: World, job: Job) {
    && w.active && job.item.ref in w.disk.accounts && w.disk.accounts[job.item.ref].profile.participating
    && Admitted(job) && CooldownOver(job) && BackoffOver(job)
    && job.snap.guard.localClear.None? && job.snap.guard.pending.None?
  }

  // The visit is on its way to the attempt; `before` are the keys issued before it.
  predicate Ahead(w: World, job: Job, u: Usage, c: Credit, before: map<string, Issue>) {
    && !w.pc.Idle? && w.pc.job == job && Unhindered(w, job)
    && MeetsRule(w.cfg.resetThreshold, u, c.expiresAt, job.now)
    && (forall k | k in before :: k in w.audit.issued)
    && match w.pc
       case AskUsage(_) => true
       case StoreUsage(_, usage) => usage == u
       case AskCredits(_, reply) => reply == Ok(u)
       case StoreCredits(_, reply, list) =>
         reply == Ok(u) && Foremost(c, list.available, job.snap.guard.tombstones)
       case NoteCredit(_, reply, credit) => reply == Ok(u) && credit == c
       case Recheck(_, usage, credit) => usage == u && credit == c
       case Decide(_, usage, credit, _) => usage == u && credit == c
       case StoreAttempt(_, attempt) =>
         attempt.key !in before && attempt.key in w.audit.issued
         && w.audit.issued[attempt.key] == Issue(job.item.ref, c.id)
       case _ => false
  }

  // The attempt with key `k` for the credit has been put on disk.
  predicate BegunWith(w: World, ref: string, c: Credit, k: string) {
    k in w.audit.issued && w.audit.issued[k] == Issue(ref, c.id) && (Holds(GuardOf(w.disk, ref), k) || Closed(w, k))
  }

  predicate Begun(w: World, ref: string, c: Credit, before: map<string, Issue>) {
    exists k | k in w.audit.issued :: k !in before && BegunWith(w, ref, c, k)
  }

  lemma StaysBegun(w: World, a: Action, ref: string, c: Credit, k: string)
    requires Inv(w) && Enabled(w, a) && BegunWith(w, ref, c, k)
    ensures BegunWith(Next(w, a), ref, c, k)
  {
    Deadlines.AuditGrows(w, a);
    if Holds(GuardOf(w.disk, ref), k) {
      AttemptStep(w, a, ref);
    }
  }

  // Steps of others leave the visit on its way.
  lemma OthersStep(w: World, a: Action, job: Job, u: Usage, c: Credit, before: map<string, Issue>)
    requires Enabled(w, a) && !a.Thread? && Favours(w, a, u, c) && Ahead(w, job, u, c, before)
    ensures Ahead(Next(w, a), job, u, c, before)
  {
    if a.Edit? && a.tx.Reconcile? {
      SeenAllKeepsGuards(MarkAbsent(w.disk.accounts), a.tx.found, a.tx.participating, a.tx.now, job.item.ref);
    }
  }

  // A store before the attempt's own keeps the account as it takes part.
  lemma SnapshotStep(w: World, a: Action, job: Job)
    requires Enabled(w, a) && a.Thread? && Unhindered(w, job) && !w.pc.Idle? && !w.pc.StoreAttempt?
    ensures Unhindered(Next(w, a), job)
  {
  }

  lemma ReadingStep(w: World, a: Action, job: Job, u: Usage, c: Credit, before: map<string, Issue>)
    requires Enabled(w, a) && a.Thread? && !a.op.Update? && Favours(w, a, u, c) && Ahead(w, job, u, c, before)
    ensures Ahead(Next(w, a), job, u, c, before)
  {
    SnapshotStep(w, a, job);
    Deadlines.AuditGrows(w, a);
    match a.op {
      case GetUsage(_) => UsageIsStored(w, a);
      case GetCredits(_) =>
        if w.pc.Recheck? {
          RecheckIff(w, a);
        }
      case Check(_, _) => AttemptRecords(w, a);
    }
  }

  lemma StoringStep(w: World, a: Action, job: Job, u: Usage, c: Credit, before: map<string, Issue>)
    requires Reached(w) && Enabled(w, a) && a.Thread? && a.op.Update? && Ahead(w, job, u, c, before)
    requires !w.pc.StoreAttempt?
    ensures Ahead(Next(w, a), job, u, c, before)
  {
    SnapshotStep(w, a, job);
    Deadlines.AuditGrows(w, a);
    if w.pc.StoreUsage? {
      GatesIff(w, a);
    } else if w.pc.StoreCredits? {
      ChoiceIff(w, a, c);
    } else {
      SpendingIff(w, a);
    }
  }

  lemma AttemptStored(w: World, a: Action, job: Job, u: Usage, c: Credit, before: map<string, Issue>)
    requires Reached(w) && Enabled(w, a) && a.Thread? && Favours(w, a, u, c)
    requires Ahead(w, job, u, c, before) && w.pc.StoreAttempt?
    ensures Begun(Next(w, a), job.item.ref, c, before)
  {
    AttemptEffect(w, a);
    Deadlines.AuditGrows(w, a);
    assert BegunWith(Next(w, a), job.item.ref, c, w.pc.attempt.key);
  }

  lemma AheadStep(w: World, a: Action, job: Job, u: Usage, c: Credit, before: map<string, Issue>)
    requires Reached(w) && Enabled(w, a) && Favours(w, a, u, c) && Ahead(w, job, u, c, before)
    ensures Ahead(Next(w, a), job, u, c, before) || Begun(Next(w, a), job.item.ref, c, before)
  {
    if !a.Thread? {
      OthersStep(w, a, job, u, c, before);
    } else if !a.op.Update? {
      ReadingStep(w, a, job, u, c, before);
    } else if w.pc.StoreAttempt? {
      AttemptStored(w, a, job, u, c, before);
    } else {
      StoringStep(w, a, job, u, c, before);
    }
  }

  lemma BegunStep(w: World, a: Action, ref: string, c: Credit, before: map<string, Issue>)
    requires Reached(w) && Enabled(w, a) && Begun(w, ref, c, before)
    ensures Begun(Next(w, a), ref, c, before)
  {
    Reachable(w);
    var k :| k in w.audit.issued && k !in before && BegunWith(w, ref, c, k);
    StaysBegun(w, a, ref, c, k);
  }

  lemma {:induction false} AheadRun(w: World, run: seq<Action>, job: Job, u: Usage, c: Credit)
    requires Reached(w) && Legal(w, run) && AllFavour(w, run, u, c) && Ahead(w, job, u, c, w.audit.issued)
    ensures Ahead(Exec(w, run), job, u, c, w.audit.issued) || Begun(Exec(w, run), job.item.ref, c, w.audit.issued)
  {
    if run != [] {
      var front, a := run[..|run| - 1], run[|run| - 1];
      AheadRun(w, front, job, u, c);
      Witnesses.ReachedOn(w, front);
      if Ahead(Exec(w, front), job, u, c, w.audit.issued) {
        AheadStep(Exec(w, front), a, job, u, c, w.audit.issued);
      } else {
        BegunStep(Exec(w, front), a, job.item.ref, c, w.audit.issued);
      }
    }
  }

  // A visit to an account that nothing hinders, whose usage and foremost credit meet the rule, makes a key for that
  // account and credit and puts the attempt with it on disk.
  lemma RuleSpends(w: World, visit: seq<Action>, u: Usage, c: Credit)
    requires Reached(w) && w.pc.AskUsage? && Unhindered(w, w.pc.job)
    requires MeetsRule(w.cfg.resetThreshold, u, c.expiresAt, w.pc.job.now)
    requires Legal(w, visit) && AllFavour(w, visit, u, c) && Exec(w, visit).pc.Idle?
    ensures var v := Exec(w, visit);
            exists k | k in v.audit.issued ::
              && k !in w.audit.issued && v.audit.issued[k] == Issue(w.pc.job.item.ref, c.id)
              && (Holds(GuardOf(v.disk, w.pc.job.item.ref), k) || Closed(v, k))
  {
    AheadRun(w, visit, w.pc.job, u, c);
    var v, ref := Exec(w, visit), w.pc.job.item.ref;
    var k :| k in v.audit.issued && k !in w.audit.issued && BegunWith(v, ref, c, k);
  }
}
