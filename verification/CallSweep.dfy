/** One undisturbed sweep: the timeouts of the ids one index read returned. */
module CallSweep {
  import opened CallBoard
  import opened CallHistory
  import opened CallRuns
  import opened ScoreIndex

  datatype Ended = Ended(call: CallId, caller: UserId, callee: UserId, media: string)

  /** The board after timing out these ids in turn. */
  function TimeoutAll(b: Board, ids: seq<CallId>): Board
    decreases |ids|
  {
    if ids == [] then b else TimeoutAll(Timeout(b, ids[0]).0, ids[1..])
  }

  /** The calls that a sweep reports, in the order of the index read. */
  function EndedBy(b: Board, ids: seq<CallId>): seq<Ended>
    decreases |ids|
  {
    if ids == [] then []
    else
      var (r, reply) := Timeout(b, ids[0]);
      (if reply.Done? then [Ended(ids[0], reply.caller, reply.callee, reply.media)] else [])
      + EndedBy(r, ids[1..])
  }

  /** A sweep clears every id it read from the index and touches no other entry; it ends
      those calls among them that still ring, and no other call. */
  lemma {:induction false} SweepEffect(b: Board, ids: seq<CallId>)
    ensures TimeoutAll(b, ids).ringing == b.ringing - set c | c in ids
    ensures forall c <- b.calls :: c in TimeoutAll(b, ids).calls <==> !(c in ids && Rings(b, c))
    ensures forall c <- TimeoutAll(b, ids).calls :: c in b.calls && TimeoutAll(b, ids).calls[c] == b.calls[c]
    decreases |ids|
  {
    if ids != [] {
      var r := Timeout(b, ids[0]).0;
      SweepEffect(r, ids[1..]);
      assert (set c | c in ids) == {ids[0]} + set c | c in ids[1..];
    }
  }

  /** The report is exact: an entry for each id read whose call still rang, with that call's
      parties and media, and nothing else. */
  lemma {:induction false} SweepReport(b: Board, ids: seq<CallId>)
    requires forall i, j :: 0 <= i < j < |ids| ==> ids[i] != ids[j]
    ensures forall e :: e in EndedBy(b, ids) <==>
              e.call in ids && Rings(b, e.call)
              && e == Ended(e.call, b.calls[e.call].caller, b.calls[e.call].callee, b.calls[e.call].media)
    decreases |ids|
  {
    if ids != [] {
      var r := Timeout(b, ids[0]).0;
      SweepReport(r, ids[1..]);
    }
  }

  /** One sweep takes min(20, n) of the n overdue entries out of the index, whether their
      calls are live, answered or expired. */
  lemma SweepProgress(b: Board, limit: int, ids: seq<CallId>)
    requires Range(b.ringing, limit, 20, ids)
    ensures var n := |Overdue(b.ringing, limit)|;
      |Overdue(TimeoutAll(b, ids).ringing, limit)| == if n <= 20 then 0 else n - 20
  {
    SweepEffect(b, ids);
    DistinctCount(ids);
    var due, swept := Overdue(b.ringing, limit), set c | c in ids;
    assert Overdue(TimeoutAll(b, ids).ringing, limit) == due - swept;
    assert swept <= due;
    assert |due - swept| == |due| - |swept|;
  }

  /** Sweeps with the same limit, each reading what the one before left. */
  ghost predicate Backlog(b: Board, limit: int, rounds: seq<seq<CallId>>)
    decreases |rounds|
  {
    rounds == [] || (Range(b.ringing, limit, 20, rounds[0]) && Backlog(TimeoutAll(b, rounds[0]), limit, rounds[1..]))
  }

  function SweepAll(b: Board, rounds: seq<seq<CallId>>): Board
    decreases |rounds|
  {
    if rounds == [] then b else SweepAll(TimeoutAll(b, rounds[0]), rounds[1..])
  }

  /** A backlog of n overdue entries is drained by ceil(n / 20) sweeps, and by no fewer. */
  lemma {:induction false} BacklogDrains(b: Board, limit: int, rounds: seq<seq<CallId>>)
    requires Backlog(b, limit, rounds)
    ensures Overdue(SweepAll(b, rounds).ringing, limit) == {} <==> |rounds| >= (|Overdue(b.ringing, limit)| + 19) / 20
    decreases |rounds|
  {
    if rounds != [] {
      SweepProgress(b, limit, rounds[0]);
      BacklogDrains(TimeoutAll(b, rounds[0]), limit, rounds[1..]);
    }
  }

  /** In any run, a call that is unresolved 45 seconds after its invite and among the 20 lowest
      scores is in every index read made before its 70 seconds are over, so an undisturbed sweep
      reports its timeout. */
  lemma {:induction false} UnansweredCallIsSwept(actions: seq<Action>, id: CallId, ids: seq<CallId>)
    requires Unresolved(actions, id)
    requires var w := Run(actions);
      && w.born[id].at + 45_000 <= w.board.now
      && |Overdue(w.board.ringing, DueAt(w.born[id]))| <= 20
      && Range(w.board.ringing, w.board.now / 1000, 20, ids)
    ensures id in ids
    ensures var w := Run(actions);
      Ended(id, w.born[id].caller, w.born[id].callee, w.born[id].media) in EndedBy(w.board, ids)
  {
    var w := Run(actions);
    Reachable(actions);
    UnresolvedCallsRing(actions, id);
    assert Documented(w, id);
    LowestAreRead(w.board.ringing, w.board.now / 1000, id, ids);
    SweepReport(w.board, ids);
  }

  /** An overdue entry with at most 20 scores up to its own is in every index read. */
  lemma LowestAreRead(z: Scores, limit: int, id: CallId, ids: seq<CallId>)
    requires Range(z, limit, 20, ids) && id in z && z[id] <= limit && |Overdue(z, z[id])| <= 20
    ensures id in ids
  {
    if id !in ids {
      DistinctCount(ids);
      var due, low := Overdue(z, limit), Overdue(z, z[id]);
      var swept := set c | c in ids;
      if |due| <= 20 {
        assert swept <= due - {id};
        SubsetSize(swept, due - {id});
      } else {
        assert swept + {id} <= low;
        SubsetSize(swept + {id}, low);
      }
    }
  }
}
