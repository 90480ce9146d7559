/** What stopping the engine guarantees while a visit is still under way. */
module Stopping {
  import opened Basics
  import opened Records
  import opened Transactions
  import opened Protocol
  import opened Invariant
  import opened Preservation
  import opened Theorems

  predicate NoRestart(run: seq<Action>) {
    forall a | a in run :: !a.Restart?
  }

  predicate Calls(a: Action) {
    a.Thread? && a.op.Consume?
  }

  // How often the run calls Consume.
  function Consumes(run: seq<Action>): nat {
    if run == [] then 0 else Consumes(run[..|run| - 1]) + (if Calls(run[|run| - 1]) then 1 else 0)
  }

  function Due(pc: Pc): nat {
    if pc.Spend? then 1 else 0
  }

  lemma StoppedStore(pc: Pc, cfg: Config, ok: bool)
    requires AtStore(pc) && (pc.StoreAttempt? ==> !ok)
    ensures !AfterStore(pc, cfg, ok).Spend?
  {
  }

  lemma StoppedStep(w: World, a: Action)
    requires Enabled(w, a) && !w.active && !a.Restart?
    ensures !Next(w, a).active && Due(Next(w, a).pc) + (if Calls(a) then 1 else 0) <= Due(w.pc)
  {
    match a {
      case Thread(now, Update(jitter, converted, outcome)) =>
        var tx := TxOf(w.pc, w.cfg, now, jitter, converted);
        StoppedStore(w.pc, w.cfg, Written(w, tx, outcome) && outcome == Committed);
      case _ =>
    }
  }

  // A stopped engine makes at most one more Consume call before the next restart, and only if its thread stood
  // right before that call when it was stopped.
  lemma {:induction false} LastConsume(w: World, run: seq<Action>)
    requires Legal(w, run) && !w.active && NoRestart(run)
    ensures !Exec(w, run).active && Consumes(run) + Due(Exec(w, run).pc) <= Due(w.pc)
  {
    if run != [] {
      var front, a := run[..|run| - 1], run[|run| - 1];
      assert a in run && forall b | b in front :: b in run;
      LastConsume(w, front);
      StoppedStep(Exec(w, front), a);
    }
  }

  // And it puts no further attempt on disk.
  lemma NothingBegins(w: World, run: seq<Action>, a: Action, r: string)
    requires Reached(w) && !w.active && Legal(w, run) && NoRestart(run) && Enabled(Exec(w, run), a)
    ensures !Starts(Exec(w, run), Next(Exec(w, run), a), r)
  {
    LastConsume(w, run);
    Reachable(w);
    RunInv(w, run);
    if Starts(Exec(w, run), Next(Exec(w, run), a), r) {
      StartsAtStoreAttempt(Exec(w, run), a, r);
    }
  }
}
