/** How an unclear attempt is resolved: every visit to it makes progress, and which runs exist. */
module Resolution {
  import opened Basics
  import opened Records
  import opened Codex
  import opened Discovery
  import opened Transactions
  import opened Protocol
  import opened Invariant
  import opened Preservation
  import opened Theorems
  import Deadlines

  // Steps in which no write is lost, nothing is cancelled, and the process does not restart.
  predicate Undisturbed(a: Action) {
    match a
    case Restart => false
    case Thread(_, Update(_, _, outcome)) => outcome == Committed
    case Thread(_, Check(go, _)) => go
    case _ => true
  }

  predicate AllUndisturbed(run: seq<Action>) {
    forall a | a in run :: Undisturbed(a)
  }

  // The attempt the thread is resolving, if it is past the gates of such a visit.
  function Resolved(pc: Pc): Option<Attempt> {
    match pc
    case VerifyCredits(_, a) => Some(a)
    case VerifyUsage(_, a, _) => Some(a)
    case MayRetry(_, a) => Some(a)
    case Spend(_, a) => Some(a)
    case ConfirmCredits(_, a, _, _) => Some(a)
    case ConfirmUsage(_, a, _, _, _, _) => Some(a)
    case StoreSuccess(_, a, _, _, _) => Some(a)
    case StoreFailure(_, a, _, _, _) => Some(a)
    case StoreAmbiguous(_, a, _) => Some(a)
    case StoreBump(_, a, _) => Some(a)
    case _ => None
  }

  predicate Resolving(w: World, r: string, attempt: Attempt) {
    Resolved(w.pc) == Some(attempt) && w.pc.job.item.ref == r
  }

  // The visit has closed the attempt, or has raised its count by one.
  predicate Settled(w: World, r: string, attempt: Attempt) {
    && Ending(w.pc)
    && var p := GuardOf(w.disk, r).pending;
       (p.None? && Closed(w, attempt.key)) || (p == Some(Tried(attempt)))
  }

  // The places of a visit at which a closing is certain.
  predicate Closing(pc: Pc) {
    || pc.ConfirmCredits? || pc.ConfirmUsage? || pc.StoreSuccess? || pc.StoreFailure?
    || ((pc.VerifyCredits? || pc.VerifyUsage?) && pc.attempt.verificationCount >= MAXIMUM_VERIFICATION_TRIES)
  }

  // A reading that was answered.
  predicate Answered(a: Action) {
    match a
    case Thread(_, GetUsage(reply)) => reply.Ok?
    case Thread(_, GetCredits(reply)) => reply.Ok?
    case _ => true
  }

  lemma ReadingProgress(w: World, now: Time, op: Op, r: string, attempt: Attempt)
    requires Enabled(w, Thread(now, op)) && (op.GetUsage? || op.GetCredits?) && Resolving(w, r, attempt)
    ensures var v := Next(w, Thread(now, op));
            Resolving(v, r, attempt) && (Closing(w.pc) && Answered(Thread(now, op)) ==> Closing(v.pc))
  {
  }

  lemma CallProgress(w: World, now: Time, op: Op, r: string, attempt: Attempt)
    requires Inv(w) && Enabled(w, Thread(now, op)) && !op.Update? && Undisturbed(Thread(now, op))
    requires Resolving(w, r, attempt)
    ensures var v := Next(w, Thread(now, op));
            Resolving(v, r, attempt) && (Closing(w.pc) && Answered(Thread(now, op)) ==> Closing(v.pc))
  {
    if op.GetUsage? || op.GetCredits? {
      ReadingProgress(w, now, op, r, attempt);
    }
  }

  // What a visit that resolves an attempt writes about it.
  predicate Resolves(tx: Tx, r: string, attempt: Attempt, closing: bool) {
    && ChangesGuard(tx) && tx.ref == r
    && match tx
       case Succeed(_, _, _, a, _, _, _) => a == attempt
       case Fail(_, _, _, _, _, _, _, _) => true
       case Postpone(_, _, a, _, _) => a == attempt && !closing
       case Bump(_, a, _, _) => a == attempt && !closing
       case _ => false
  }

  lemma ResolvingStore(w: World, now: Time, jitter: Time, converted: Time, r: string, attempt: Attempt)
    requires Resolving(w, r, attempt) && AtStore(w.pc)
    ensures Resolves(TxOf(w.pc, w.cfg, now, jitter, converted), r, attempt, Closing(w.pc))
    ensures AfterStore(w.pc, w.cfg, true).Idle? || AfterStore(w.pc, w.cfg, true).ClearQuota?
  {
  }

  lemma ResolvingEffect(w: World, v: World, tx: Tx, r: string, attempt: Attempt, closing: bool)
    requires Resolves(tx, r, attempt, closing) && GuardOf(w.disk, r).pending == Some(attempt) && Strikes(w, v, tx)
    ensures var p := GuardOf(v.disk, r).pending;
            (p.None? && Closed(v, attempt.key)) || (p == Some(Tried(attempt)) && !closing)
  {
  }

  lemma StoreProgress(w: World, now: Time, jitter: Time, converted: Time, r: string, attempt: Attempt)
    requires Inv(w) && Enabled(w, Thread(now, Update(jitter, converted, Committed)))
    requires Resolving(w, r, attempt)
    ensures var v := Next(w, Thread(now, Update(jitter, converted, Committed)));
            Settled(v, r, attempt) && (Closing(w.pc) ==> GuardOf(v.disk, r).pending.None?)
  {
    var tx := TxOf(w.pc, w.cfg, now, jitter, converted);
    ResolvingStore(w, now, jitter, converted, r, attempt);
    assert GuardOf(w.disk, r).pending == Some(attempt) && Written(w, tx, Committed);
    StoreKind(w, now, jitter, converted, Committed);
    ResolvingEffect(w, Next(w, Thread(now, Update(jitter, converted, Committed))), tx, r, attempt, Closing(w.pc));
  }

  // The places a visit can still pass when its attempt is settled.
  predicate Ending(pc: Pc) {
    pc.Idle? || pc.ClearQuota? || pc.StoreCleared? || pc.StoreUncleared?
  }

  lemma EndingStep(w: World, a: Action)
    requires Enabled(w, a) && Ending(w.pc) && (w.pc.Idle? ==> !a.Thread?)
    ensures Ending(Next(w, a).pc)
  {
  }

  lemma EndingKeepsPending(w: World, a: Action, r: string)
    requires Inv(w) && Enabled(w, a) && Ending(w.pc) && (w.pc.Idle? ==> !a.Thread?)
    ensures GuardOf(Next(w, a).disk, r).pending == GuardOf(w.disk, r).pending
  {
    GuardStep(w, a, r);
  }

  // Once settled, the rest of the visit leaves the attempt alone.
  lemma SettledStep(w: World, a: Action, r: string, attempt: Attempt)
    requires Inv(w) && Enabled(w, a) && Undisturbed(a) && Settled(w, r, attempt) && (w.pc.Idle? ==> !a.Thread?)
    ensures Settled(Next(w, a), r, attempt)
    ensures GuardOf(w.disk, r).pending.None? ==> GuardOf(Next(w, a).disk, r).pending.None?
  {
    EndingStep(w, a);
    EndingKeepsPending(w, a, r);
    if Closed(w, attempt.key) {
      StaysClosed(w, a, attempt.key);
    }
  }

  lemma ProgressStep(w: World, a: Action, r: string, attempt: Attempt)
    requires Inv(w) && Enabled(w, a) && Undisturbed(a) && Resolving(w, r, attempt)
    ensures var v := Next(w, a);
            || (Resolving(v, r, attempt) && (Closing(w.pc) && Answered(a) ==> Closing(v.pc)))
            || (Settled(v, r, attempt) && (Closing(w.pc) ==> GuardOf(v.disk, r).pending.None?))
  {
    match a {
      case Thread(now, Update(jitter, converted, _)) => StoreProgress(w, now, jitter, converted, r, attempt);
      case Thread(now, op) => CallProgress(w, now, op, r, attempt);
      case _ =>
    }
  }

  // The run stays within one visit: the thread is not idle before the end.
  predicate OneVisit(w: World, run: seq<Action>)
    requires Legal(w, run)
  {
    run == [] || (OneVisit(w, run[..|run| - 1]) && (Exec(w, run[..|run| - 1]).pc.Idle? ==> !run[|run| - 1].Thread?))
  }

  lemma {:induction false} VisitProgress(w: World, run: seq<Action>, r: string, attempt: Attempt)
    requires Inv(w) && Resolving(w, r, attempt)
    requires Legal(w, run) && AllUndisturbed(run) && OneVisit(w, run)
    ensures var v := Exec(w, run);
            || (Resolving(v, r, attempt) && (Closing(w.pc) && (forall a | a in run :: Answered(a)) ==> Closing(v.pc)))
            || (Settled(v, r, attempt)
                && (Closing(w.pc) && (forall a | a in run :: Answered(a)) ==> GuardOf(v.disk, r).pending.None?))
  {
    if run != [] {
      var front, a := run[..|run| - 1], run[|run| - 1];
      assert forall b | b in front :: b in run;
      assert a in run;
      VisitProgress(w, front, r, attempt);
      RunInv(w, front);
      var u := Exec(w, front);
      if Resolving(u, r, attempt) {
        ProgressStep(u, a, r, attempt);
      } else {
        SettledStep(u, a, r, attempt);
      }
    }
  }

  // A visit that passes the gates with a pending attempt ends with the attempt closed or its count raised by
  // one; with a count of two or more and answered readings it ends with the attempt closed.
  lemma BoundedResolution(w: World, visit: seq<Action>)
    requires Reached(w) && w.pc.VerifyCredits?
    requires Legal(w, visit) && AllUndisturbed(visit) && OneVisit(w, visit) && Exec(w, visit).pc.Idle?
    ensures var v := Exec(w, visit); var p := w.pc.attempt; var r := w.pc.job.item.ref;
            && GuardOf(w.disk, r).pending == Some(p)
            && (|| (GuardOf(v.disk, r).pending.None? && Closed(v, p.key))
                || GuardOf(v.disk, r).pending == Some(Tried(p)))
            && (p.verificationCount >= MAXIMUM_VERIFICATION_TRIES && (forall a | a in visit :: Answered(a))
                ==> GuardOf(v.disk, r).pending.None?)
  {
    Reachable(w);
    VisitProgress(w, visit, w.pc.job.item.ref, w.pc.attempt);
  }

  // ------------------------------------------------------ all visits together

  // The step with which a visit to the account `r` passes the gates to a pending attempt.
  predicate Enters(w: World, a: Action, r: string)
    requires Enabled(w, a)
  {
    !w.pc.VerifyCredits? && Next(w, a).pc.VerifyCredits? && Next(w, a).pc.job.item.ref == r
  }

  function Entries(w: World, run: seq<Action>, r: string): nat
    requires Legal(w, run)
  {
    if run == [] then 0
    else Entries(w, run[..|run| - 1], r) + (if Enters(Exec(w, run[..|run| - 1]), run[|run| - 1], r) then 1 else 0)
  }

  // After `n` visits the attempt with key `k` is closed, or its count shows them; the third one closes it.
  predicate Tallies(w: World, r: string, k: string, n: nat) {
    var p := GuardOf(w.disk, r).pending;
    || Closed(w, k)
    || (p.Some? && p.value.key == k
        && if Resolved(w.pc).Some? && w.pc.job.item.ref == r
           then n <= p.value.verificationCount + 1 && n <= 3 && (n == 3 ==> Closing(w.pc))
           else n <= p.value.verificationCount && n <= 2)
  }

  lemma ResolvedPending(w: World)
    requires Inv(w) && Resolved(w.pc).Some?
    ensures GuardOf(w.disk, w.pc.job.item.ref).pending == Resolved(w.pc)
  {
  }

  // A step of a visit that is resolving the attempt.
  lemma TallyResolving(w: World, a: Action, r: string, k: string, n: nat)
    requires Inv(w) && Enabled(w, a) && Undisturbed(a) && Answered(a)
    requires Tallies(w, r, k, n) && !Closed(w, k) && Resolved(w.pc).Some? && w.pc.job.item.ref == r
    ensures Tallies(Next(w, a), r, k, n) && !Enters(w, a, r)
  {
    var attempt := Resolved(w.pc).value;
    ResolvedPending(w);
    StepInv(w, a);
    ProgressStep(w, a, r, attempt);
    NoEntry(w, a, r);
    if Resolving(Next(w, a), r, attempt) {
      ResolvedPending(Next(w, a));
    }
  }

  lemma NoEntry(w: World, a: Action, r: string)
    requires Enabled(w, a) && Resolved(w.pc).Some?
    ensures !Enters(w, a, r)
  {
  }

  lemma CallEnters(w: World, now: Time, op: Op)
    requires Enabled(w, Thread(now, op)) && !op.Update? && Resolved(w.pc).None?
    ensures var v := Next(w, Thread(now, op)); Resolved(v.pc).Some? ==> v.pc.VerifyCredits?
  {
  }

  lemma StoreEnters(pc: Pc, cfg: Config, ok: bool)
    requires AtStore(pc)
    ensures var next := AfterStore(pc, cfg, ok);
            && (!next.Idle? ==> next.job == pc.job)
            && (Resolved(next).Some? ==> next.VerifyCredits? || (pc.StoreAttempt? && ok))
  {
  }

  lemma VisitKept(w: World, a: Action)
    requires Enabled(w, a) && Resolved(w.pc).Some?
    ensures !Next(w, a).pc.Idle? ==> Next(w, a).pc.job == w.pc.job
  {
  }

  // A pending attempt comes to be resolved only past the gates of a visit.
  lemma ResolvingEnters(w: World, a: Action, r: string)
    requires Inv(w) && Enabled(w, a) && GuardOf(w.disk, r).pending.Some?
    requires !(Resolved(w.pc).Some? && w.pc.job.item.ref == r)
    requires Resolved(Next(w, a).pc).Some? && Next(w, a).pc.job.item.ref == r
    ensures Enters(w, a, r)
  {
    if Resolved(w.pc).Some? {
      VisitKept(w, a);
    }
    match a {
      case Thread(now, Update(jitter, converted, outcome)) =>
        var tx := TxOf(w.pc, w.cfg, now, jitter, converted);
        StoreEnters(w.pc, w.cfg, Written(w, tx, outcome) && outcome == Committed);
      case Thread(now, op) => CallEnters(w, now, op);
      case _ =>
    }
  }

  // Any other step.
  lemma TallyElsewhere(w: World, a: Action, r: string, k: string, n: nat)
    requires Inv(w) && Enabled(w, a)
    requires Tallies(w, r, k, n) && !Closed(w, k) && !(Resolved(w.pc).Some? && w.pc.job.item.ref == r)
    ensures Tallies(Next(w, a), r, k, n + (if Enters(w, a, r) then 1 else 0))
  {
    var v := Next(w, a);
    AttemptStep(w, a, r);
    if Resolved(v.pc).Some? && v.pc.job.item.ref == r {
      ResolvingEnters(w, a, r);
      StepInv(w, a);
      ResolvedPending(v);
    }
  }

  lemma {:induction false} TallyRun(w: World, run: seq<Action>, r: string, k: string)
    requires Inv(w) && w.pc.Idle? && Holds(GuardOf(w.disk, r), k)
    requires Legal(w, run) && AllUndisturbed(run) && forall a | a in run :: Answered(a)
    ensures Tallies(Exec(w, run), r, k, Entries(w, run, r))
  {
    if run == [] {
      assert AccountInv(w, r);
    } else {
      var front, a := run[..|run| - 1], run[|run| - 1];
      assert a in run && forall b | b in front :: b in run;
      TallyRun(w, front, r, k);
      RunInv(w, front);
      var u := Exec(w, front);
      if Closed(u, k) {
        StaysClosed(u, a, k);
      } else if Resolved(u.pc).Some? && u.pc.job.item.ref == r {
        TallyResolving(u, a, r, k, Entries(w, front, r));
      } else {
        TallyElsewhere(u, a, r, k, Entries(w, front, r));
      }
    }
  }

  // When nothing is lost or cancelled and readings are answered, three visits close any pending attempt,
  // whatever else happens between and during them.
  lemma ThreeVisits(w: World, more: seq<Action>, r: string, k: string)
    requires Reached(w) && w.pc.Idle? && Holds(GuardOf(w.disk, r), k)
    requires Legal(w, more) && AllUndisturbed(more) && (forall a | a in more :: Answered(a))
    requires Exec(w, more).pc.Idle? && 3 <= Entries(w, more, r)
    ensures Closed(Exec(w, more), k)
  {
    Reachable(w);
    TallyRun(w, more, r, k);
  }

  lemma StaysClosed(w: World, a: Action, k: string)
    requires Enabled(w, a) && Closed(w, k)
    ensures Closed(Next(w, a), k)
  {
    Deadlines.AuditGrows(w, a);
  }

  // How many steps the thread can still make in its visit.
  function Rank(pc: Pc): nat {
    match pc
    case Idle => 0
    case StoreCleared(_, _, _) => 1
    case StoreUncleared(_, _, _, _) => 1
    case StoreAmbiguous(_, _, _) => 1
    case StoreBump(_, _, _) => 1
    case StoreDeferral(_, _, _) => 1
    case StoreFailure(_, _, _, _, _) => 1
    case LeaveNote(_, _) => 1
    case ClearQuota(_, _) => 2
    case StoreSuccess(_, _, _, _, _) => 3
    case ConfirmUsage(_, _, _, _, _, _) => 4
    case ConfirmCredits(_, _, _, _) => 5
    case Spend(_, _) => 6
    case MayRetry(_, _) => 7
    case StoreAttempt(_, _) => 7
    case Decide(_, _, _, _) => 8
    case VerifyUsage(_, _, _) => 8
    case VerifyCredits(_, _) => 9
    case Recheck(_, _, _) => 9
    case NoteCredit(_, _, _) => 10
    case StoreCredits(_, _, _) => 11
    case AskCredits(_, _) => 12
    case StoreUsage(_, _) => 13
    case AskUsage(_) => 14
  }

  lemma ReadingRank(pc: Pc, now: Time, usage: UsageReply, credits: CreditsReply)
    ensures pc.AskUsage? || pc.VerifyUsage? || pc.ConfirmUsage? ==> Rank(AfterUsage(pc, usage)) < Rank(pc)
    ensures pc.AskCredits? || pc.Recheck? || pc.VerifyCredits? || pc.ConfirmCredits? ==>
              Rank(AfterCredits(pc, now, credits)) < Rank(pc)
  {
  }

  lemma ReplyRank(pc: Pc, now: Time, go: bool, key: Option<string>, consume: ConsumeReply, clearing: ClearReply)
    ensures pc.Decide? || pc.MayRetry? ==> Rank(AfterCheck(pc, go, key)) < Rank(pc)
    ensures pc.Spend? ==> Rank(AfterConsume(pc, consume)) < Rank(pc)
    ensures pc.ClearQuota? ==> Rank(AfterClear(pc, now, clearing)) < Rank(pc)
  {
  }

  lemma CallRank(w: World, now: Time, op: Op)
    requires OpEnabled(w, now, op) && !w.pc.Idle? && !op.Update?
    ensures Rank(ThreadStep(w, now, op).pc) < Rank(w.pc)
  {
    match op {
      case GetUsage(reply) => ReadingRank(w.pc, now, reply, Err(Failure(None)));
      case GetCredits(reply) => ReadingRank(w.pc, now, Err(Failure(None)), reply);
      case Check(go, key) => ReplyRank(w.pc, now, go, key, Ok(Reset), ClearDone);
      case Consume(_, reply) => ReplyRank(w.pc, now, false, None, reply, ClearDone);
      case ResetQuota(reply) => ReplyRank(w.pc, now, false, None, Ok(Reset), reply);
    }
  }

  lemma StoreRank(pc: Pc, cfg: Config, ok: bool)
    requires AtStore(pc)
    ensures Rank(AfterStore(pc, cfg, ok)) < Rank(pc)
  {
  }

  // Every step of the thread brings its visit closer to the end, whatever is answered and whatever is lost.
  lemma VisitTerminates(w: World, a: Action)
    requires Enabled(w, a) && !w.pc.Idle?
    ensures a.Thread? ==> Rank(Next(w, a).pc) < Rank(w.pc)
    ensures !a.Thread? ==> Next(w, a).pc == w.pc || Next(w, a).pc.Idle?
  {
    match a {
      case Thread(now, Update(jitter, converted, outcome)) =>
        var done := Written(w, TxOf(w.pc, w.cfg, now, jitter, converted), outcome);
        StoreRank(w.pc, w.cfg, done && outcome == Committed);
      case Thread(now, op) => CallRank(w, now, op);
      case _ =>
    }
  }

  // ------------------------------------------------------- other accounts

  lemma OthersStored(w: World, tx: Tx, outcome: Outcome, r: string)
    requires AtStore(w.pc) && r in w.disk.accounts && (!IsEdit(tx) ==> r != tx.ref) && !tx.Reconcile? && !tx.Participate?
    ensures var v := StoreStep(w, tx, outcome); r in v.disk.accounts && v.disk.accounts[r] == w.disk.accounts[r]
  {
  }

  lemma OthersStep(w: World, a: Action, r: string)
    requires Enabled(w, a) && !w.pc.Idle? && r != w.pc.job.item.ref && r in w.disk.accounts
    ensures var v := Next(w, a);
            && r in v.disk.accounts && v.disk.accounts[r].guard == w.disk.accounts[r].guard
            && v.disk.accounts[r].report == w.disk.accounts[r].report
            && (a.Thread? ==> v.disk.accounts[r] == w.disk.accounts[r])
            && (v.pc.Idle? || v.pc.job == w.pc.job)
  {
    match a {
      case Edit(tx, _) => EditsKeepGuards(tx, w.disk, r);
      case Thread(now, Update(jitter, converted, outcome)) =>
        var tx := TxOf(w.pc, w.cfg, now, jitter, converted);
        StoreEnters(w.pc, w.cfg, Written(w, tx, outcome) && outcome == Committed);
        OthersStored(w, tx, outcome, r);
      case _ =>
    }
  }

  // Processing one account leaves every other account's guard and report alone; participation edits that
  // fall into the visit touch profiles only.
  lemma {:induction false} OthersUntouched(w: World, run: seq<Action>, r: string)
    requires Legal(w, run) && OneVisit(w, run) && !w.pc.Idle? && r != w.pc.job.item.ref && r in w.disk.accounts
    ensures var v := Exec(w, run);
            && r in v.disk.accounts && v.disk.accounts[r].guard == w.disk.accounts[r].guard
            && v.disk.accounts[r].report == w.disk.accounts[r].report
            && (v.pc.Idle? || v.pc.job == w.pc.job)
  {
    if run != [] {
      var front, a := run[..|run| - 1], run[|run| - 1];
      OthersUntouched(w, front, r);
      var u := Exec(w, front);
      if u.pc.Idle? {
        IdleStep(u, a, r);
      } else {
        OthersStep(u, a, r);
      }
    }
  }

  lemma IdleStep(w: World, a: Action, r: string)
    requires Enabled(w, a) && w.pc.Idle? && !a.Thread? && r in w.disk.accounts
    ensures var v := Next(w, a);
            && r in v.disk.accounts && v.disk.accounts[r].guard == w.disk.accounts[r].guard
            && v.disk.accounts[r].report == w.disk.accounts[r].report && v.pc.Idle?
  {
    match a {
      case Edit(tx, _) => EditsKeepGuards(tx, w.disk, r);
      case _ =>
    }
  }
}
