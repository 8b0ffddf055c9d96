/** Sweeps among everything else: between a sweeper's index read and each of its timeouts the clock
    may run, calls may be made, answered and ended, and other sweepers may work on the same ids. */
module CallSweepRuns {
  import opened CallBoard
  import opened CallHistory
  import opened CallRuns
  import opened CallSweep
  import opened ScoreIndex

  /** The sweeper does not start over. */
  ghost predicate OneSweep(later: seq<Action>, worker: nat) {
    forall i :: 0 <= i < |later| ==> !(later[i].StartSweep? && later[i].worker == worker)
  }

  /** The ids of one index read that are not left any more are out of the index for good. */
  ghost predicate Cleared(w: World, worker: nat, found: seq<CallId>) {
    && (forall id <- found :: id in w.born)
    && (forall id <- Left(w, worker) :: id in found)
    && (forall id <- found :: id in w.board.ringing ==> id in Left(w, worker))
  }

  /** A call that is born and out of the index never gets into it again. */
  lemma OutOfIndexStaysOut(w: World, a: Action, id: CallId)
    requires Inv(w) && id in w.born && id !in w.board.ringing
    ensures id !in Step(w, a).0.board.ringing
  {
    if !a.DoInvite? && !a.DoAccept? { StepOnlyRemoves(w, a, id); }
  }

  /** A sweeper's list only loses its first id, and only together with that id's index entry. */
  lemma SweepAdvances(w: World, a: Action, worker: nat)
    requires !(a.StartSweep? && a.worker == worker)
    ensures var v := Step(w, a).0;
      if a == SweepNext(worker) && Left(w, worker) != []
      then Left(v, worker) == Left(w, worker)[1..] && Left(w, worker)[0] !in v.board.ringing
      else Left(v, worker) == Left(w, worker)
  {
  }

  lemma StepKeepsCleared(w: World, a: Action, worker: nat, found: seq<CallId>)
    requires Inv(w) && Cleared(w, worker, found) && !(a.StartSweep? && a.worker == worker)
    ensures Cleared(Step(w, a).0, worker, found)
  {
    var v := Step(w, a).0;
    SweepAdvances(w, a, worker);
    forall id | id in found ensures id in v.born && (id in v.board.ringing ==> id in Left(v, worker)) {
      StepKeepsBirths(w, a, id);
      if id !in w.board.ringing { OutOfIndexStaysOut(w, a, id); }
    }
  }

  /** A run with one index read in it. */
  ghost function Swept(before: seq<Action>, worker: nat, limit: int, found: seq<CallId>, later: seq<Action>)
    : seq<Action>
  {
    before + [StartSweep(worker, limit, found)] + later
  }

  lemma {:induction false} SweepKeepsCleared(before: seq<Action>, worker: nat, limit: int, found: seq<CallId>,
                                             later: seq<Action>)
    requires Range(Run(before).board.ringing, limit, 20, found) && OneSweep(later, worker)
    ensures Cleared(Run(Swept(before, worker, limit, found, later)), worker, found)
    decreases |later|
  {
    if later == [] {
      SweepStarts(before, worker, limit, found);
      Reachable(before);
      forall id | id in found ensures id in Run(before).born {
        assert id in Overdue(Run(before).board.ringing, limit);
        assert Documented(Run(before), id);
      }
    } else {
      var n := |later| - 1;
      var early := Swept(before, worker, limit, found, later[..n]);
      SweepKeepsCleared(before, worker, limit, found, later[..n]);
      SweepGoesOn(before, worker, limit, found, later);
      Reachable(early);
      StepKeepsCleared(Run(early), later[n], worker, found);
    }
  }

  /** Whatever is interleaved with it, a sweep that is through has cleared every id it read: of the
      n entries due at its index read at most n - 20 are left, those of raced calls included. */
  lemma {:induction false} SweepClearsWhatItRead(before: seq<Action>, worker: nat, limit: int, found: seq<CallId>,
                                                 later: seq<Action>)
    requires Range(Run(before).board.ringing, limit, 20, found) && OneSweep(later, worker)
    requires Left(Run(Swept(before, worker, limit, found, later)), worker) == []
    ensures var w := Run(Swept(before, worker, limit, found, later));
      var due := Overdue(Run(before).board.ringing, limit);
      && (forall id <- found :: id !in w.board.ringing)
      && |due * w.board.ringing.Keys| <= if |due| <= 20 then 0 else |due| - 20
  {
    SweepKeepsCleared(before, worker, limit, found, later);
    var due := Overdue(Run(before).board.ringing, limit);
    var kept := due * Run(Swept(before, worker, limit, found, later)).board.ringing.Keys;
    var swept := set id | id in found;
    DistinctCount(found);
    assert swept <= due && kept <= due - swept;
    assert |due - swept| == |due| - |swept|;
    SubsetSize(kept, due - swept);
  }

  /** How many timeouts this sweeper has run. */
  function Timeouts(later: seq<Action>, worker: nat): nat
    decreases |later|
  {
    if later == [] then 0
    else Timeouts(later[..|later| - 1], worker) + if later[|later| - 1] == SweepNext(worker) then 1 else 0
  }

  /** What is left of these ids after k of them. */
  function From(found: seq<CallId>, k: nat): seq<CallId> {
    if k <= |found| then found[k..] else []
  }

  lemma FromMore(found: seq<CallId>, k: nat)
    ensures From(found, k + 1) == if From(found, k) == [] then [] else From(found, k)[1..]
  {
  }

  lemma TimeoutTakesOne(w: World, a: Action, worker: nat, found: seq<CallId>, k: nat)
    requires !(a.StartSweep? && a.worker == worker) && Left(w, worker) == From(found, k)
    ensures Left(Step(w, a).0, worker) == From(found, k + if a == SweepNext(worker) then 1 else 0)
  {
    SweepAdvances(w, a, worker);
    FromMore(found, k);
  }

  /** Each timeout of a sweep takes one id off its list, and nothing else does. */
  lemma {:induction false} SweepTakesOneTimeoutEach(before: seq<Action>, worker: nat, limit: int, found: seq<CallId>,
                                                    later: seq<Action>)
    requires Range(Run(before).board.ringing, limit, 20, found) && OneSweep(later, worker)
    ensures Left(Run(Swept(before, worker, limit, found, later)), worker) == From(found, Timeouts(later, worker))
    decreases |later|
  {
    if later == [] {
      SweepStarts(before, worker, limit, found);
    } else {
      var n := |later| - 1;
      SweepTakesOneTimeoutEach(before, worker, limit, found, later[..n]);
      SweepGoesOn(before, worker, limit, found, later);
      TimeoutTakesOne(Run(Swept(before, worker, limit, found, later[..n])), later[n], worker, found,
                      Timeouts(later[..n], worker));
    }
  }

  lemma SweepStarts(before: seq<Action>, worker: nat, limit: int, found: seq<CallId>)
    requires Range(Run(before).board.ringing, limit, 20, found)
    ensures var w := Run(Swept(before, worker, limit, found, []));
      w.board == Run(before).board && w.born == Run(before).born && Left(w, worker) == found
  {
    RunMore(before, StartSweep(worker, limit, found));
    assert Swept(before, worker, limit, found, []) == before + [StartSweep(worker, limit, found)];
  }

  lemma SweepGoesOn(before: seq<Action>, worker: nat, limit: int, found: seq<CallId>, later: seq<Action>)
    requires later != []
    ensures var n := |later| - 1; var early := Swept(before, worker, limit, found, later[..n]);
      Run(Swept(before, worker, limit, found, later)) == Step(Run(early), later[n]).0
  {
    var n := |later| - 1;
    var early := Swept(before, worker, limit, found, later[..n]);
    assert Swept(before, worker, limit, found, later) == early + [later[n]];
    RunMore(early, later[n]);
  }

  /** When a sweeper reaches an id, in any run, its timeout succeeds exactly when the call is still
      unresolved: answered, ended and expired calls are raced and yield nothing. */
  lemma {:induction false} TimeoutSucceedsExactlyWhenUnresolved(actions: seq<Action>, worker: nat)
    requires Left(Run(actions), worker) != []
    ensures var id := Left(Run(actions), worker)[0];
      Succeeded(Step(Run(actions), SweepNext(worker)).1, id) != [] <==> Unresolved(actions, id)
  {
    UnresolvedCallsRing(actions, Left(Run(actions), worker)[0]);
  }

  /** A call that is unresolved 45 seconds after its invite and among the 20 lowest scores when a
      sweeper reads the index is not unresolved any more when that sweeper is through, whatever ran
      in between: its time is over, or it was answered, ended or timed out. */
  lemma {:induction false} UnansweredCallIsResolved(before: seq<Action>, worker: nat, found: seq<CallId>,
                                                    later: seq<Action>, id: CallId)
    requires Unresolved(before, id)
    requires var w := Run(before);
      && w.born[id].at + 45_000 <= w.board.now
      && |Overdue(w.board.ringing, DueAt(w.born[id]))| <= 20
      && Range(w.board.ringing, w.board.now / 1000, 20, found)
    requires OneSweep(later, worker)
    requires Left(Run(Swept(before, worker, Run(before).board.now / 1000, found, later)), worker) == []
    ensures id in found
    ensures !Unresolved(Swept(before, worker, Run(before).board.now / 1000, found, later), id)
  {
    var limit := Run(before).board.now / 1000;
    var all := Swept(before, worker, limit, found, later);
    Reachable(before);
    UnresolvedCallsRing(before, id);
    assert Documented(Run(before), id);
    LowestAreRead(Run(before).board.ringing, limit, id, found);
    SweepClearsWhatItRead(before, worker, limit, found, later);
    UnresolvedCallsRing(all, id);
    Reachable(all);
    assert Documented(Run(all), id);
  }
}
