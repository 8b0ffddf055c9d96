/** Whole runs of the call board: signalling steps, the clock, and sweepers whose read
    and per-call timeouts are interleaved with everything else. */
module CallRuns {
  import opened CallBoard
  import opened ScoreIndex

  /** What an invite fixed: the parties, the media, the instant it was issued by the service and the
      instant its script ran. */
  datatype Birth = Birth(caller: UserId, callee: UserId, media: string, issued: nat, at: nat)

  /** One sweeper between its index read and its last timeout. */
  datatype Sweep = Sweep(limit: int, ids: seq<CallId>)

  datatype World = World(board: Board, born: map<CallId, Birth>, sweeps: map<nat, Sweep>)

  datatype Op = Invited | Cancelled | Rejected | TimedOut | Answered | HungUp

  datatype Action =
    | Clock(to: nat)
    | DoInvite(caller: UserId, callee: UserId, id: CallId, media: string, issued: nat)
    | DoCancel(user: UserId, call: CallId)
    | DoReject(user: UserId, call: CallId)
    | DoAccept(user: UserId, call: CallId)
    | DoHangup(user: UserId, call: CallId)
    | StartSweep(worker: nat, limit: int, found: seq<CallId>)
    | SweepNext(worker: nat)

  datatype Event = Silent | Replied(op: Op, user: UserId, call: CallId, reply: Reply)

  const START := World(EMPTY, map[], map[])

  /** The index score of a call whose invite was issued at this instant: whole seconds. */
  function Score(issued: nat): int {
    (issued + RING_WAIT * 1000) / 1000
  }

  /** One step. An action that cannot happen in this state leaves the world alone: the clock
      never runs back, a call id is never issued twice, and an invite is not issued in the future. */
  ghost function Step(w: World, a: Action): (World, Event) {
    var b := w.board;
    match a
    case Clock(to) =>
      (if b.now <= to then w.(board := Tick(b, to)) else w, Silent)
    case DoInvite(caller, callee, id, media, issued) =>
      if id in w.born || caller == callee || b.now < issued then (w, Silent)
      else
        var (r, reply) := Invite(b, caller, callee, id, media, Score(issued));
        (w.(board := r,
            born := if reply.Done? then w.born[id := Birth(caller, callee, media, issued, b.now)] else w.born),
         Replied(Invited, caller, id, reply))
    case DoCancel(user, id) =>
      var (r, reply) := Cancel(b, user, id);
      (w.(board := r), Replied(Cancelled, user, id, reply))
    case DoReject(user, id) =>
      var (r, reply) := Reject(b, user, id);
      (w.(board := r), Replied(Rejected, user, id, reply))
    case DoAccept(user, id) =>
      var (r, reply) := Accept(b, user, id);
      (w.(board := r), Replied(Answered, user, id, reply))
    case DoHangup(user, id) =>
      var (r, reply) := Hangup(b, user, id);
      (w.(board := r), Replied(HungUp, user, id, reply))
    case StartSweep(worker, limit, ids) =>
      (if Range(b.ringing, limit, 20, ids) then w.(sweeps := w.sweeps[worker := Sweep(limit, ids)]) else w, Silent)
    case SweepNext(worker) =>
      if worker !in w.sweeps || w.sweeps[worker].ids == [] then (w, Silent)
      else
        var s := w.sweeps[worker];
        var (r, reply) := Timeout(b, s.ids[0]);
        (w.(board := r, sweeps := w.sweeps[worker := s.(ids := s.ids[1..])]), Replied(TimedOut, "", s.ids[0], reply))
  }

  ghost function Run(actions: seq<Action>): World {
    if actions == [] then START
    else Step(Run(actions[..|actions| - 1]), actions[|actions| - 1]).0
  }

  /** What a sweeper between its index read and its last timeout still has to do. */
  ghost function Left(w: World, worker: nat): seq<CallId> {
    if worker in w.sweeps then w.sweeps[worker].ids else []
  }

  lemma RunMore(actions: seq<Action>, a: Action)
    ensures Run(actions + [a]) == Step(Run(actions), a).0
  {
    assert (actions + [a])[..|actions|] == actions;
  }

  // ---- what every reachable state satisfies ----

  /** The second from which a sweep may time this call out. */
  function DueAt(b: Birth): int {
    b.issued / 1000 + 45
  }

  /** A live record matches its invite, rings with its second in the index or is out of it,
      and expires at the latest 1870 seconds after its invite. */
  ghost predicate Documented(w: World, id: CallId) {
    && (id in w.board.ringing ==> id in w.born && w.board.ringing[id] == DueAt(w.born[id]))
    && (id in w.born ==> w.born[id].issued <= w.born[id].at <= w.board.now)
    && (id in w.board.calls ==>
          var c := w.board.calls[id];
          && id in w.born
          && c.caller == w.born[id].caller && c.callee == w.born[id].callee && c.media == w.born[id].media
          && (c.phase == Ringing ==> id in w.board.ringing && c.deadline == w.born[id].at + 70_000)
          && (c.phase == Accepted ==>
                id !in w.board.ringing && c.deadline < w.born[id].at + 1_870_000))
  }

  /** Whatever a sweeper still holds was overdue for its limit when it was invited. */
  ghost predicate Justified(w: World, worker: nat) {
    worker in w.sweeps ==>
      forall id <- w.sweeps[worker].ids :: id in w.born && DueAt(w.born[id]) <= w.sweeps[worker].limit
  }

  ghost predicate Inv(w: World) {
    && Lockstep(w.board)
    && (forall id {:trigger Documented(w, id)} :: Documented(w, id))
    && (forall k {:trigger Justified(w, k)} :: Justified(w, k))
  }

  lemma StepKeepsLockstep(w: World, a: Action)
    requires Inv(w)
    ensures Lockstep(Step(w, a).0.board)
  {
    var b, r := w.board, Step(w, a).0.board;
    match a
    case Clock(to) => if b.now <= to { TickKeepsLockstep(b, to); }
    case DoInvite(caller, callee, id, media, issued) =>
      if !(id in w.born || caller == callee || b.now < issued) {
        assert Documented(w, id);
        InviteKeepsLockstep(b, caller, callee, id, media, Score(issued));
      }
    case DoCancel(user, id) => EndKeepsLockstep(b, r, id);
    case DoReject(user, id) => EndKeepsLockstep(b, r, id);
    case DoAccept(user, id) => AcceptKeepsLockstep(b, user, id);
    case DoHangup(user, id) => EndKeepsLockstep(b, r, id);
    case StartSweep(worker, limit, ids) =>
    case SweepNext(worker) =>
      if worker in w.sweeps && w.sweeps[worker].ids != [] {
        EndKeepsLockstep(b, r, w.sweeps[worker].ids[0]);
      }
  }

  lemma EndKeepsLockstep(b: Board, r: Board, id: CallId)
    requires Lockstep(b)
    requires
      || r == b || r == Unindex(b, id)
      || (id in b.calls && (r == Release(b, id) || r == Unindex(Release(b, id), id)))
    ensures Lockstep(r)
  {
    IndexIsApartFromLockstep(b, Unindex(b, id));
    if id in b.calls {
      ReleaseFreesOnlyItsOwnLocks(b, id);
      IndexIsApartFromLockstep(Release(b, id), Unindex(Release(b, id), id));
    }
  }

  /** What a step other than an invite or an answer can do to the records: remove some. */
  ghost predicate OnlyRemoves(b: Board, r: Board, id: CallId) {
    && b.now <= r.now
    && (id in r.calls ==> id in b.calls && r.calls[id] == b.calls[id])
    && (id in r.ringing ==> id in b.ringing && r.ringing[id] == b.ringing[id])
    && (id in r.calls && b.calls[id].phase == Ringing && id in b.ringing ==> id in r.ringing)
  }

  lemma StepOnlyRemoves(w: World, a: Action, id: CallId)
    requires !a.DoInvite? && !a.DoAccept?
    ensures OnlyRemoves(w.board, Step(w, a).0.board, id) && Step(w, a).0.born == w.born
  {
  }

  lemma StepKeepsDocumented(w: World, a: Action, id: CallId)
    requires Inv(w)
    ensures Documented(Step(w, a).0, id)
  {
    assert Documented(w, id);
    if a.DoInvite? {
      InviteKeepsDocumented(w, a, id);
    } else if a.DoAccept? {
      assert Held(w.board, id);
    } else {
      StepOnlyRemoves(w, a, id);
    }
  }

  lemma InviteKeepsDocumented(w: World, a: Action, id: CallId)
    requires a.DoInvite? && Documented(w, id) && Documented(w, a.id)
    ensures Documented(Step(w, a).0, id)
  {
  }

  lemma StepKeepsJustified(w: World, a: Action, k: nat)
    requires Inv(w)
    ensures Justified(Step(w, a).0, k)
  {
    assert Justified(w, k);
    if a.StartSweep? && a.worker == k && Range(w.board.ringing, a.limit, 20, a.found) {
      forall id | id in a.found ensures id in w.born && DueAt(w.born[id]) <= a.limit {
        assert id in Overdue(w.board.ringing, a.limit);
        assert Documented(w, id);
      }
    }
  }

  lemma StepKeepsInv(w: World, a: Action)
    requires Inv(w)
    ensures Inv(Step(w, a).0)
  {
    var v := Step(w, a).0;
    StepKeepsLockstep(w, a);
    forall id ensures Documented(v, id) {
      StepKeepsDocumented(w, a, id);
    }
    forall k ensures Justified(v, k) {
      StepKeepsJustified(w, a, k);
    }
  }

  /** Every reachable state, whatever was interleaved and whatever expired, is consistent. */
  lemma {:induction false} Reachable(actions: seq<Action>)
    ensures Inv(Run(actions))
  {
    if actions != [] {
      Reachable(actions[..|actions| - 1]);
      StepKeepsInv(Run(actions[..|actions| - 1]), actions[|actions| - 1]);
    } else {
      assert forall u :: Owned(EMPTY, u);
      assert forall c :: Held(EMPTY, c);
      assert forall id :: Documented(START, id);
      assert forall k :: Justified(START, k);
    }
  }
}
