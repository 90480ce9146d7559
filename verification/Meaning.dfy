/** When an attempt that was closed as a success has redeemed its credit. */
module Meaning {
  import opened Basics
  import opened Records
  import opened Codex
  import opened Transactions
  import opened Protocol
  import opened Invariant
  import opened Preservation
  import opened Theorems
  import opened Resolution
  import Deadlines

  // The step does not answer falsely about the key `k`:
  //   a list read for a pending attempt lacks the attempt's credit only if the key has redeemed it;
  //   Consume is answered with one of the two codes of success only if the key has redeemed, now or before.
  predicate Candid(w: World, a: Action, k: string) {
    match a
    case Thread(_, GetCredits(Ok(list))) =>
      w.pc.VerifyCredits? && w.pc.attempt.key == k && !Contains(list.available, w.pc.attempt.creditId) ==>
        k in w.server.byKey
    case Thread(_, Consume(redeems, Ok(code))) =>
      w.pc.Spend? && w.pc.attempt.key == k && (code.Reset? || code.AlreadyRedeemed?) ==> redeems || k in w.server.byKey
    case _ => true
  }

  predicate AllCandid(w: World, run: seq<Action>, k: string)
    requires Legal(w, run)
  {
    run == [] || (AllCandid(w, run[..|run| - 1], k) && Candid(Exec(w, run[..|run| - 1]), run[|run| - 1], k))
  }

  // The thread has the answer that makes it close the attempt with key `k` as a success.
  predicate Decided(pc: Pc, k: string) {
    || (pc.VerifyUsage? && pc.attempt.key == k && !Contains(pc.list.available, pc.attempt.creditId))
    || ((pc.ConfirmCredits? || pc.ConfirmUsage? || pc.StoreSuccess?) && pc.attempt.key == k)
  }

  // ------------------------------------------------- candid answers suffice

  predicate Means(w: World, k: string) {
    k in w.audit.successes || Decided(w.pc, k) ==> k in w.server.byKey
  }

  lemma MeansStore(w: World, tx: Tx, outcome: Outcome, k: string)
    requires AtStore(w.pc) && Means(w, k) && (tx.Succeed? ==> w.pc.StoreSuccess? && tx.attempt == w.pc.attempt)
    ensures Means(StoreStep(w, tx, outcome), k)
  {
  }

  lemma MeansCall(w: World, now: Time, op: Op, k: string)
    requires Enabled(w, Thread(now, op)) && !op.Update? && Means(w, k) && Candid(w, Thread(now, op), k)
    ensures Means(Next(w, Thread(now, op)), k)
  {
  }

  lemma MeansStep(w: World, a: Action, k: string)
    requires Enabled(w, a) && Means(w, k) && Candid(w, a, k)
    ensures Means(Next(w, a), k)
  {
    match a {
      case Thread(now, Update(jitter, converted, outcome)) =>
        MeansStore(w, TxOf(w.pc, w.cfg, now, jitter, converted), outcome, k);
      case Thread(now, op) => MeansCall(w, now, op, k);
      case _ =>
    }
  }

  lemma {:induction false} MeansRun(w: World, run: seq<Action>, k: string)
    requires Legal(w, run) && Means(w, k) && AllCandid(w, run, k)
    ensures Means(Exec(w, run), k)
  {
    if run != [] {
      MeansRun(w, run[..|run| - 1], k);
      MeansStep(Exec(w, run[..|run| - 1]), run[|run| - 1], k);
    }
  }

  // In a run whose answers are all candid every success is a redemption.
  lemma SuccessesRedeemed(start: World, run: seq<Action>)
    requires Initial(start) && Legal(start, run) && forall k :: AllCandid(start, run, k)
    ensures Exec(start, run).audit.successes.Keys <= Exec(start, run).server.byKey.Keys
  {
    forall k | k in Exec(start, run).audit.successes
      ensures k in Exec(start, run).server.byKey
    {
      MeansRun(start, run, k);
    }
  }

  // ------------------------------------------------ a false answer is enough

  // The key has redeemed nothing, and the thread has no Consume with it ahead in this visit.
  predicate Misled(w: World, k: string) {
    && k !in w.server.byKey
    && (Decided(w.pc, k) || w.pc.StoreBump? || w.pc.Idle? || w.pc.ClearQuota? || w.pc.StoreCleared? || w.pc.StoreUncleared?)
  }

  lemma FalseAnswer(w: World, a: Action, k: string)
    requires Enabled(w, a) && !Candid(w, a, k)
    ensures Decided(Next(w, a).pc, k) && Misled(Next(w, a), k)
  {
  }

  lemma MisledStep(w: World, a: Action, k: string)
    requires Enabled(w, a) && Misled(w, k) && (w.pc.Idle? ==> !a.Thread?)
    ensures Misled(Next(w, a), k)
  {
  }

  lemma {:induction false} MisledRun(w: World, run: seq<Action>, k: string)
    requires Legal(w, run) && OneVisit(w, run) && Misled(w, k)
    ensures Misled(Exec(w, run), k)
  {
    if run != [] {
      MisledRun(w, run[..|run| - 1], k);
      MisledStep(Exec(w, run[..|run| - 1]), run[|run| - 1], k);
    }
  }

  lemma {:induction false} VisitMeans(w: World, visit: seq<Action>, k: string)
    requires Legal(w, visit) && OneVisit(w, visit) && Means(w, k)
    ensures if AllCandid(w, visit, k) then Means(Exec(w, visit), k) else Misled(Exec(w, visit), k)
  {
    if visit != [] {
      var front, a := visit[..|visit| - 1], visit[|visit| - 1];
      VisitMeans(w, front, k);
      var u := Exec(w, front);
      if !AllCandid(w, front, k) {
        MisledStep(u, a, k);
      } else if Candid(u, a, k) {
        MeansStep(u, a, k);
      } else {
        FalseAnswer(u, a, k);
      }
    }
  }

  // A visit that closes an attempt as a success has redeemed its key if and only if its answers were candid,
  // whatever else went on.
  lemma SuccessRedeemedIff(w: World, visit: seq<Action>, k: string)
    requires Legal(w, visit) && OneVisit(w, visit)
    requires k !in w.audit.successes && !Decided(w.pc, k) && k in Exec(w, visit).audit.successes
    ensures k in Exec(w, visit).server.byKey <==> AllCandid(w, visit, k)
  {
    VisitMeans(w, visit, k);
  }

  lemma DecidedStep(w: World, a: Action, k: string)
    requires Inv(w) && Enabled(w, a) && Undisturbed(a) && Answered(a) && Decided(w.pc, k)
    ensures Decided(Next(w, a).pc, k) || k in Next(w, a).audit.successes
  {
  }

  lemma {:induction false} DecidedRun(w: World, run: seq<Action>, k: string)
    requires Inv(w) && Legal(w, run) && AllUndisturbed(run) && (forall a | a in run :: Answered(a))
    requires Decided(w.pc, k) || k in w.audit.successes
    ensures Decided(Exec(w, run).pc, k) || k in Exec(w, run).audit.successes
  {
    if run != [] {
      var front, a := run[..|run| - 1], run[|run| - 1];
      assert a in run && forall b | b in front :: b in run;
      DecidedRun(w, front, k);
      RunInv(w, front);
      var u := Exec(w, front);
      if k in u.audit.successes {
        Deadlines.AuditGrows(u, a);
      } else {
        DecidedStep(u, a, k);
      }
    }
  }

  // After one false answer, a visit that is not disturbed closes the attempt as a success with nothing redeemed.
  lemma FalseAnswerCloses(w: World, a: Action, rest: seq<Action>, k: string)
    requires Reached(w) && Enabled(w, a) && !Candid(w, a, k)
    requires var v := Next(w, a);
      && Legal(v, rest) && OneVisit(v, rest) && AllUndisturbed(rest) && (forall b | b in rest :: Answered(b))
      && Exec(v, rest).pc.Idle?
    ensures var v := Exec(Next(w, a), rest); k in v.audit.successes && k !in v.server.byKey
  {
    Reachable(w);
    StepInv(w, a);
    FalseAnswer(w, a, k);
    MisledRun(Next(w, a), rest, k);
    DecidedRun(Next(w, a), rest, k);
  }
}
