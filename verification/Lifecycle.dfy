/** Scanning and stopping from any number of threads: `internal/reset/engine.go`, `Scan` and `Stop`.

    Each access to the flag `active` and to the lock `scanMu` is one step; the steps of all
    threads interleave freely. */
module Lifecycle {
  import opened Basics

  datatype Place =
    // Scan: first look at the flag, TryLock, second look, the scan itself, Unlock
    | ScanEnter | ScanTryLock | ScanRecheck | ScanBody | ScanUnlock | ScanReturned(ran: bool)
    // Stop: the swap of the flag, and for the caller that won it Lock and Unlock
    | StopSwap | StopLock | StopUnlock | StopReturned(won: bool)

  datatype System = System(active: bool, owner: Option<nat>, threads: map<nat, Place>)

  const INITIAL := System(true, None, map[])

  datatype Action = BeginScan(t: nat) | BeginStop(t: nat) | Advance(t: nat)

  predicate Enabled(s: System, a: Action) {
    match a
    case BeginScan(t) => t !in s.threads
    case BeginStop(t) => t !in s.threads
    case Advance(t) =>
      && t in s.threads && !s.threads[t].ScanReturned? && !s.threads[t].StopReturned?
      && (s.threads[t].StopLock? ==> s.owner.None?)
  }

  function Move(s: System, t: nat, p: Place): System {
    s.(threads := s.threads[t := p])
  }

  function Next(s: System, a: Action): System
    requires Enabled(s, a)
  {
    match a
    case BeginScan(t) => Move(s, t, ScanEnter)
    case BeginStop(t) => Move(s, t, StopSwap)
    case Advance(t) =>
      match s.threads[t]
      case ScanEnter => Move(s, t, if s.active then ScanTryLock else ScanReturned(false))
      case ScanTryLock =>
        if s.owner.None? then Move(s, t, ScanRecheck).(owner := Some(t)) else Move(s, t, ScanReturned(false))
      case ScanRecheck => if s.active then Move(s, t, ScanBody) else Move(s, t, ScanReturned(false)).(owner := None)
      case ScanBody => Move(s, t, ScanUnlock)
      case ScanUnlock => Move(s, t, ScanReturned(true)).(owner := None)
      case StopSwap => Move(s, t, if s.active then StopLock else StopReturned(false)).(active := false)
      case StopLock => Move(s, t, StopUnlock).(owner := Some(t))
      case StopUnlock => Move(s, t, StopReturned(true)).(owner := None)
      case _ => s
  }

  predicate Legal(start: System, run: seq<Action>)
    decreases |run|, 0
  {
    run == [] || (Legal(start, run[..|run| - 1]) && Enabled(Exec(start, run[..|run| - 1]), run[|run| - 1]))
  }

  function Exec(start: System, run: seq<Action>): System
    requires Legal(start, run)
    decreases |run|, 1
  {
    if run == [] then start else Next(Exec(start, run[..|run| - 1]), run[|run| - 1])
  }

  predicate Holding(p: Place) {
    p.ScanRecheck? || p.ScanBody? || p.ScanUnlock? || p.StopUnlock?
  }

  // The winner of the swap has got past every scan that was under way.
  predicate Drained(p: Place) {
    p.StopUnlock? || p == StopReturned(true)
  }

  predicate Inv(s: System) {
    && (forall t | t in s.threads :: Holding(s.threads[t]) ==> s.owner == Some(t))
    && (forall t | t in s.threads :: s.threads[t].StopLock? || Drained(s.threads[t]) ==> !s.active)
    && (forall t, u | t in s.threads && u in s.threads :: Drained(s.threads[t]) ==> !s.threads[u].ScanBody?)
  }

  lemma StepInv(s: System, a: Action)
    requires Inv(s) && Enabled(s, a)
    ensures Inv(Next(s, a))
  {
  }

  // Whatever the threads do, the system stays safe, and a Stop that has returned stays returned.
  lemma {:induction false} RunInv(s: System, run: seq<Action>, t: nat)
    requires Inv(s) && Legal(s, run)
    ensures Inv(Exec(s, run))
    ensures t in s.threads && s.threads[t] == StopReturned(true) ==>
              t in Exec(s, run).threads && Exec(s, run).threads[t] == StopReturned(true)
  {
    if run != [] {
      RunInv(s, run[..|run| - 1], t);
      StepInv(Exec(s, run[..|run| - 1]), run[|run| - 1]);
    }
  }

  // No two threads scan at the same time.
  lemma OneScan(run: seq<Action>, t: nat, u: nat)
    requires Legal(INITIAL, run)
    requires var s := Exec(INITIAL, run); t in s.threads && u in s.threads && s.threads[t].ScanBody? && s.threads[u].ScanBody?
    ensures t == u
  {
    RunInv(INITIAL, run, t);
  }

  // Once the Stop that won the swap has returned, nobody is scanning and nobody ever will.
  lemma StopIsFinal(run: seq<Action>, more: seq<Action>, t: nat, u: nat)
    requires Legal(INITIAL, run) && Legal(Exec(INITIAL, run), more)
    requires t in Exec(INITIAL, run).threads && Exec(INITIAL, run).threads[t] == StopReturned(true)
    requires u in Exec(Exec(INITIAL, run), more).threads
    ensures !Exec(Exec(INITIAL, run), more).threads[u].ScanBody?
  {
    RunInv(INITIAL, run, t);
    RunInv(Exec(INITIAL, run), more, t);
  }

  lemma Extend(run: seq<Action>, a: Action)
    requires Legal(INITIAL, run) && Enabled(Exec(INITIAL, run), a)
    ensures Legal(INITIAL, run + [a]) && Exec(INITIAL, run + [a]) == Next(Exec(INITIAL, run), a)
  {
    assert (run + [a])[..|run|] == run;
  }

  // A Stop that lost the swap promises nothing: it can return while a scan is still running.
  lemma LateStopIsNotFinal() returns (run: seq<Action>)
    ensures Legal(INITIAL, run)
    ensures var s := Exec(INITIAL, run);
            0 in s.threads && 2 in s.threads && s.threads[0].ScanBody? && s.threads[2] == StopReturned(false)
  {
    run := [];
    Extend(run, BeginScan(0));
    run := run + [BeginScan(0)];
    Extend(run, Advance(0));
    run := run + [Advance(0)];
    Extend(run, Advance(0));
    run := run + [Advance(0)];
    Extend(run, Advance(0));
    run := run + [Advance(0)];
    assert Exec(INITIAL, run) == System(true, Some(0), map[0 := ScanBody]);
    Extend(run, BeginStop(1));
    run := run + [BeginStop(1)];
    Extend(run, Advance(1));
    run := run + [Advance(1)];
    Extend(run, BeginStop(2));
    run := run + [BeginStop(2)];
    Extend(run, Advance(2));
    run := run + [Advance(2)];
  }
}
