/** How far the verification count of a pending attempt can go. */
module Counting {
  import opened Basics
  import opened Records
  import opened Transactions
  import opened Protocol
  import opened Invariant
  import opened Preservation
  import opened Theorems
  import opened Resolution

  // A reading for the verification of the attempt with key `k` that fails.
  predicate FailsReading(w: World, a: Action, k: string) {
    match a
    case Thread(_, GetCredits(Err(_))) => w.pc.VerifyCredits? && w.pc.attempt.key == k
    case Thread(_, GetUsage(Err(_))) => w.pc.VerifyUsage? && w.pc.attempt.key == k
    case _ => false
  }

  function FailedReadings(w: World, run: seq<Action>, k: string): nat
    requires Legal(w, run)
  {
    if run == [] then 0
    else FailedReadings(w, run[..|run| - 1], k)
         + (if FailsReading(Exec(w, run[..|run| - 1]), run[|run| - 1], k) then 1 else 0)
  }

  // A pending attempt's count, after `n` failed readings for it; the latest may not be stored yet.
  predicate Bounded(w: World, r: string, k: string, n: nat) {
    var p := GuardOf(w.disk, r).pending;
    && (w.pc.StoreBump? && w.pc.attempt.key == k ==> 0 < n)
    && (p.Some? && p.value.key == k ==>
          p.value.verificationCount <=
          MAXIMUM_VERIFICATION_TRIES + n - (if w.pc.StoreBump? && w.pc.attempt.key == k then 1 else 0))
  }

  // A failed reading is about to be stored only because it has just failed.
  lemma BumpSource(w: World, a: Action, k: string)
    requires Enabled(w, a) && Next(w, a).pc.StoreBump? && Next(w, a).pc.attempt.key == k
    ensures if w.pc.StoreBump? then Next(w, a).pc == w.pc && !FailsReading(w, a, k) else FailsReading(w, a, k)
  {
  }

  // A step that leaves the account's guard alone.
  lemma BoundedElsewhere(w: World, a: Action, r: string, k: string, n: nat)
    requires Enabled(w, a) && Bounded(w, r, k, n) && GuardOf(Next(w, a).disk, r) == GuardOf(w.disk, r)
    ensures Bounded(Next(w, a), r, k, n + (if FailsReading(w, a, k) then 1 else 0))
  {
    if Next(w, a).pc.StoreBump? && Next(w, a).pc.attempt.key == k {
      BumpSource(w, a, k);
    }
  }

  // What a transaction of the thread does to the count of its attempt.
  lemma CountAfter(w: World, now: Time, jitter: Time, converted: Time)
    requires Inv(w) && AtStore(w.pc)
    ensures var g := GuardOf(w.disk, w.pc.job.item.ref);
            var h := GuardEffect(TxOf(w.pc, w.cfg, now, jitter, converted), g);
            h.pending.Some? ==>
              if w.pc.StoreAttempt? then h.pending.value.verificationCount == 0
              else g.pending.Some? && h.pending.value.key == g.pending.value.key
                   && h.pending.value.verificationCount ==
                      g.pending.value.verificationCount + (if w.pc.StoreAmbiguous? || w.pc.StoreBump? then 1 else 0)
                   && (w.pc.StoreAmbiguous? ==> g.pending.value.verificationCount < MAXIMUM_VERIFICATION_TRIES)
                   && (w.pc.StoreBump? ==> w.pc.attempt == g.pending.value)
  {
  }

  lemma BoundedStep(w: World, a: Action, r: string, k: string, n: nat)
    requires Inv(w) && Enabled(w, a) && Bounded(w, r, k, n)
    ensures Bounded(Next(w, a), r, k, n + (if FailsReading(w, a, k) then 1 else 0))
  {
    GuardStep(w, a, r);
    if GuardOf(Next(w, a).disk, r) == GuardOf(w.disk, r) {
      BoundedElsewhere(w, a, r, k, n);
    } else {
      CountAfter(w, a.now, a.op.jitter, a.op.converted);
    }
  }

  lemma {:induction false} BoundedRun(start: World, run: seq<Action>, r: string, k: string)
    requires Initial(start) && Legal(start, run)
    ensures Bounded(Exec(start, run), r, k, FailedReadings(start, run, k))
  {
    if run != [] {
      var front := run[..|run| - 1];
      BoundedRun(start, front, r, k);
      EndOfRun(start, front);
      BoundedStep(Exec(start, front), run[|run| - 1], r, k, FailedReadings(start, front, k));
    }
  }

  // The count of a pending attempt exceeds the limit by no more than the readings for it that failed.
  lemma CountBound(start: World, run: seq<Action>, r: string)
    requires Initial(start) && Legal(start, run) && GuardOf(Exec(start, run).disk, r).pending.Some?
    ensures var p := GuardOf(Exec(start, run).disk, r).pending.value;
            p.verificationCount <= MAXIMUM_VERIFICATION_TRIES + FailedReadings(start, run, p.key)
  {
    BoundedRun(start, run, r, GuardOf(Exec(start, run).disk, r).pending.value.key);
  }

  lemma {:induction false} NothingFailed(w: World, run: seq<Action>, k: string)
    requires Legal(w, run) && forall a | a in run :: Answered(a)
    ensures FailedReadings(w, run, k) == 0
  {
    if run != [] {
      var front, a := run[..|run| - 1], run[|run| - 1];
      assert a in run && forall b | b in front :: b in run;
      NothingFailed(w, front, k);
    }
  }

  // In a run whose readings are all answered no count ever exceeds the limit.
  lemma WithinLimit(start: World, run: seq<Action>, r: string)
    requires Initial(start) && Legal(start, run) && forall a | a in run :: Answered(a)
    requires GuardOf(Exec(start, run).disk, r).pending.Some?
    ensures GuardOf(Exec(start, run).disk, r).pending.value.verificationCount <= MAXIMUM_VERIFICATION_TRIES
  {
    CountBound(start, run, r);
    NothingFailed(start, run, GuardOf(Exec(start, run).disk, r).pending.value.key);
  }

  predicate PastLimit(g: Guard) {
    g.pending.Some? && g.pending.value.verificationCount > MAXIMUM_VERIFICATION_TRIES
  }

  // The step writes down a failed reading for an attempt that has used up its tries.
  predicate StoresFailedReading(w: World, a: Action, r: string) {
    && a.Thread? && a.op.Update? && a.op.outcome != Lost
    && w.pc.StoreBump? && w.pc.job.item.ref == r && w.pc.attempt.verificationCount == MAXIMUM_VERIFICATION_TRIES
  }

  lemma BumpStored(w: World, now: Time, jitter: Time, converted: Time, outcome: Outcome)
    requires Inv(w) && Enabled(w, Thread(now, Update(jitter, converted, outcome))) && w.pc.StoreBump? && outcome != Lost
    ensures GuardOf(Next(w, Thread(now, Update(jitter, converted, outcome))).disk, w.pc.job.item.ref).pending
            == Some(Tried(w.pc.attempt))
  {
    GuardAfter(TxOf(w.pc, w.cfg, now, jitter, converted), w.disk, w.pc.job.item.ref);
  }

  // A step that changes the guard does not go past the limit but in the one way.
  lemma LimitKept(w: World, a: Action, r: string)
    requires Inv(w) && Enabled(w, a) && !PastLimit(GuardOf(w.disk, r)) && PastLimit(GuardOf(Next(w, a).disk, r))
    ensures StoresFailedReading(w, a, r)
  {
    GuardStep(w, a, r);
    CountAfter(w, a.now, a.op.jitter, a.op.converted);
  }

  // A count goes past the limit exactly when such a reading is written down.
  lemma LimitPassedIff(w: World, a: Action, r: string)
    requires Reached(w) && Enabled(w, a) && !PastLimit(GuardOf(w.disk, r))
    ensures PastLimit(GuardOf(Next(w, a).disk, r)) <==> StoresFailedReading(w, a, r)
  {
    Reachable(w);
    if PastLimit(GuardOf(Next(w, a).disk, r)) {
      LimitKept(w, a, r);
    }
    if StoresFailedReading(w, a, r) {
      BumpStored(w, a.now, a.op.jitter, a.op.converted, a.op.outcome);
    }
  }
}
