/** What the participants see over a whole run: the successful replies for one call. */
module CallHistory {
  import opened CallBoard
  import opened CallRuns
  import opened ScoreIndex

  datatype Success = Success(op: Op, user: UserId, caller: UserId, callee: UserId, media: string)

  /** The successful replies for this call, oldest first. */
  ghost function Successes(actions: seq<Action>, id: CallId): seq<Success> {
    if actions == [] then []
    else
      var before := actions[..|actions| - 1];
      Successes(before, id) + Succeeded(Step(Run(before), actions[|actions| - 1]).1, id)
  }

  function Succeeded(e: Event, id: CallId): seq<Success> {
    if e.Replied? && e.call == id && e.reply.Done?
    then [Success(e.op, e.user, e.reply.caller, e.reply.callee, e.reply.media)]
    else []
  }

  function Ops(successes: seq<Success>): seq<Op> {
    seq(|successes|, i requires 0 <= i < |successes| => successes[i].op)
  }

  /** The signalling grammar: invite, then one ending or an answer, then a hangup after an answer. */
  predicate Sentence(ops: seq<Op>) {
    || ops == []
    || ops == [Invited]
    || ops == [Invited, Cancelled]
    || ops == [Invited, Rejected]
    || ops == [Invited, TimedOut]
    || ops == [Invited, Answered]
    || ops == [Invited, Answered, HungUp]
  }

  /** Only the caller invites and cancels, only the callee rejects and answers,
      either hangs up, and a timeout names nobody. */
  predicate Entitled(s: Success) {
    match s.op
    case Invited => s.user == s.caller
    case Cancelled => s.user == s.caller
    case Rejected => s.user == s.callee
    case Answered => s.user == s.callee
    case HungUp => s.user == s.caller || s.user == s.callee
    case TimedOut => s.user == ""
  }

  /** Where a call stands after these successes: they form a sentence, a record that is still
      live is exactly at the phase its successes lead to, and an index entry is left only
      while nothing but the invite has succeeded. */
  ghost predicate Stands(w: World, id: CallId, ops: seq<Op>) {
    && Sentence(ops)
    && (ops == [] <==> id !in w.born)
    && (id in w.board.calls ==> ops == if w.board.calls[id].phase == Ringing then [Invited] else [Invited, Answered])
    && (id in w.board.ringing ==> ops == [Invited])
  }

  lemma StepKeepsStanding(w: World, a: Action, id: CallId, ops: seq<Op>)
    requires Inv(w) && Stands(w, id, ops)
    ensures Stands(Step(w, a).0, id, ops + Ops(Succeeded(Step(w, a).1, id)))
  {
    assert Documented(w, id);
    var (v, e) := Step(w, a);
    if Succeeded(e, id) == [] {
      assert ops + Ops([]) == ops;
      StepKeepsOthers(w, a, id);
    } else {
      assert Ops(Succeeded(e, id)) == [e.op];
      SuccessNeedsPhase(w, a, id);
    }
  }

  /** A step with no success for this call leaves its birth alone and its record alone or expired. */
  lemma StepKeepsOthers(w: World, a: Action, id: CallId)
    requires Inv(w) && Succeeded(Step(w, a).1, id) == []
    ensures id in Step(w, a).0.born <==> id in w.born
    ensures id in Step(w, a).0.board.ringing ==> id in w.board.ringing
    ensures id in Step(w, a).0.board.calls ==> id in w.board.calls && Step(w, a).0.board.calls[id] == w.board.calls[id]
  {
    if !a.DoInvite? && !a.DoAccept? {
      StepOnlyRemoves(w, a, id);
    }
  }

  /** What a success for this call needs before the step and leaves after it. */
  lemma SuccessNeedsPhase(w: World, a: Action, id: CallId)
    requires Inv(w) && Succeeded(Step(w, a).1, id) != []
    ensures var (v, e) := Step(w, a);
      && id in v.born
      && (e.op == Invited ==> id !in w.born)
      && (e.op == HungUp ==> id in w.board.calls && w.board.calls[id].phase == Accepted)
      && (e.op != Invited && e.op != HungUp ==> id in w.board.calls && w.board.calls[id].phase == Ringing)
      && (id in v.board.calls <==> e.op == Invited || e.op == Answered)
      && (id in v.board.ringing <==> e.op == Invited)
      && (e.op == Invited ==> v.board.calls[id].phase == Ringing)
      && (e.op == Answered ==> v.board.calls[id].phase == Accepted)
  {
    assert Documented(w, id);
    if a.SweepNext? {
      assert Justified(w, a.worker);
    }
  }

  lemma OpsAppend(a: seq<Success>, b: seq<Success>)
    ensures Ops(a + b) == Ops(a) + Ops(b)
  {
  }

  /** Over every run the successes for one call are a sentence of the grammar. */
  lemma {:induction false} SuccessesFollowTheGrammar(actions: seq<Action>, id: CallId)
    ensures Stands(Run(actions), id, Ops(Successes(actions, id)))
  {
    if actions != [] {
      var before := actions[..|actions| - 1];
      Reachable(before);
      SuccessesFollowTheGrammar(before, id);
      StepKeepsStanding(Run(before), actions[|actions| - 1], id, Ops(Successes(before, id)));
      OpsAppend(Successes(before, id), Succeeded(Step(Run(before), actions[|actions| - 1]).1, id));
    }
  }

  /** The invite of a call is never rewritten. */
  lemma StepKeepsBirths(w: World, a: Action, id: CallId)
    requires Inv(w) && id in w.born
    ensures id in Step(w, a).0.born && Step(w, a).0.born[id] == w.born[id]
  {
  }

  /** The parties and the media of every reply are those of the invite, and whoever caused
      the reply was entitled to. */
  ghost predicate Faithful(w: World, id: CallId, s: Success) {
    && Entitled(s)
    && id in w.born
    && s.caller == w.born[id].caller && s.callee == w.born[id].callee && s.media == w.born[id].media
  }

  lemma {:induction false} SuccessesReportTheInvite(actions: seq<Action>, id: CallId)
    ensures forall s <- Successes(actions, id) :: Faithful(Run(actions), id, s)
  {
    if actions != [] {
      var before := actions[..|actions| - 1];
      var w, a := Run(before), actions[|actions| - 1];
      Reachable(before);
      SuccessesReportTheInvite(before, id);
      forall s | s in Successes(actions, id) ensures Faithful(Run(actions), id, s) {
        if s in Successes(before, id) {
          StepKeepsBirths(w, a, id);
        } else {
          SuccessIsFaithful(w, a, id);
        }
      }
    }
  }

  lemma SuccessIsFaithful(w: World, a: Action, id: CallId)
    requires Inv(w)
    ensures forall s <- Succeeded(Step(w, a).1, id) :: Faithful(Step(w, a).0, id, s)
  {
    assert Documented(w, id);
  }

  lemma EndedCallIsSilent(w: World, a: Action, id: CallId)
    requires Inv(w) && id in w.born && id !in w.board.calls
    ensures Succeeded(Step(w, a).1, id) == []
    ensures id in Step(w, a).0.born && id !in Step(w, a).0.board.calls
  {
    if Succeeded(Step(w, a).1, id) != [] {
      SuccessNeedsPhase(w, a, id);
    }
    StepKeepsOthers(w, a, id);
  }

  ghost predicate Over(w: World, id: CallId) {
    id in w.born && id !in w.board.calls
  }

  lemma OneMoreStepIsSilent(actions: seq<Action>, a: Action, id: CallId)
    requires Over(Run(actions), id)
    ensures Successes(actions + [a], id) == Successes(actions, id)
    ensures Over(Run(actions + [a]), id)
  {
    assert (actions + [a])[..|actions|] == actions;
    Reachable(actions);
    EndedCallIsSilent(Run(actions), a, id);
  }

  /** Once its record is gone, by an ending or by expiry, a call never succeeds again. */
  lemma {:induction false} NoSuccessAfterTheEnd(actions: seq<Action>, later: seq<Action>, id: CallId)
    requires Over(Run(actions), id)
    ensures Successes(actions + later, id) == Successes(actions, id)
    ensures Over(Run(actions + later), id)
    decreases |later|
  {
    if later == [] {
      assert actions + later == actions;
    } else {
      assert actions + later == (actions + [later[0]]) + later[1..];
      OneMoreStepIsSilent(actions, later[0], id);
      NoSuccessAfterTheEnd(actions + [later[0]], later[1..], id);
    }
  }

  // ---- locks and sweeps over whole runs ----

  /** In any reachable state a step takes a lock away from a call exactly when it ends that
      call: no unconditional delete, rollback or expiry frees a lock of another live call. */
  lemma {:induction false} LocksFollowTheirCall(actions: seq<Action>, a: Action, u: UserId)
    requires u in Run(actions).board.busy
    ensures var b := Run(actions).board; var r := Step(Run(actions), a).0.board;
      (u in r.busy && r.busy[u].call == b.busy[u].call) <==> b.busy[u].call in r.calls
  {
    var w := Run(actions);
    var c := w.board.busy[u].call;
    Reachable(actions);
    StepKeepsInv(w, a);
    var v := Step(w, a).0;
    BusyExactlyWhenParty(w.board, u, c);
    BusyExactlyWhenParty(v.board, u, c);
    assert Documented(w, c) && Documented(v, c);
    StepKeepsBirths(w, a, c);
  }

  /** The successes that take the record of a call away. */
  predicate Ends(op: Op) {
    op == Cancelled || op == Rejected || op == TimedOut || op == HungUp
  }

  /** In any reachable state a step takes a record away exactly when it is a success that ends
      the call or the clock reaching its deadline; the only other change to a record is an
      answer, which gives it 30 minutes from then. */
  lemma {:induction false} NothingElseEndsACall(actions: seq<Action>, a: Action, id: CallId)
    requires id in Run(actions).board.calls
    ensures var b := Run(actions).board;
      var (v, e) := Step(Run(actions), a);
      var won := Succeeded(e, id);
      && (id !in v.board.calls <==> (won != [] && Ends(won[0].op)) || (a.Clock? && b.calls[id].deadline <= a.to))
      && (id in v.board.calls ==>
            v.board.calls[id] == (if won != [] && won[0].op == Answered
                                  then b.calls[id].(phase := Accepted, deadline := b.now + 1_800_000)
                                  else b.calls[id]))
  {
    Reachable(actions);
    var w := Run(actions);
    assert Documented(w, id) && Held(w.board, id);
    if a.SweepNext? {
      assert Justified(w, a.worker);
    }
  }

  predicate Rings(b: Board, id: CallId) {
    id in b.calls && b.calls[id].phase == Ringing
  }

  /** Nothing but its invite has succeeded for this call, and its 70 seconds are not over. */
  ghost predicate Unresolved(actions: seq<Action>, id: CallId) {
    && Ops(Successes(actions, id)) == [Invited]
    && id in Run(actions).born
    && Run(actions).board.now < Run(actions).born[id].at + 70_000
  }

  /** Over every run the calls that ring are exactly the unresolved ones: nothing takes a call off
      the board within its 70 seconds but a success, and nothing keeps it longer but an answer. */
  lemma {:induction false} UnresolvedCallsRing(actions: seq<Action>, id: CallId)
    ensures Unresolved(actions, id) <==> Rings(Run(actions).board, id)
  {
    Reachable(actions);
    SuccessesFollowTheGrammar(actions, id);
    var w := Run(actions);
    assert Documented(w, id) && Held(w.board, id);
    if Unresolved(actions, id) {
      UnresolvedSoRings(actions, id);
    }
  }

  lemma {:induction false} UnresolvedSoRings(actions: seq<Action>, id: CallId)
    requires Unresolved(actions, id)
    ensures Rings(Run(actions).board, id)
  {
    if actions != [] {
      var before, a := actions[..|actions| - 1], actions[|actions| - 1];
      Reachable(before);
      SuccessesFollowTheGrammar(before, id);
      var won := Succeeded(Step(Run(before), a).1, id);
      OpsAppend(Successes(before, id), won);
      if won == [] {
        assert Ops(Successes(before, id)) + Ops(won) == Ops(Successes(before, id));
        UnresolvedBefore(before, a, id);
        UnresolvedSoRings(before, id);
        StillRings(before, a, id);
      } else {
        SuccessNeedsPhase(Run(before), a, id);
        InvitedLast(Ops(Successes(before, id)), Ops(won));
      }
    }
  }

  lemma ClockForward(w: World, a: Action)
    ensures w.board.now <= Step(w, a).0.board.now
  {
    if !a.DoInvite? && !a.DoAccept? { StepOnlyRemoves(w, a, ""); }
  }

  /** A call that is unresolved after a step without a success for it was so before. */
  lemma UnresolvedBefore(before: seq<Action>, a: Action, id: CallId)
    requires Inv(Run(before)) && Succeeded(Step(Run(before), a).1, id) == []
    requires Ops(Successes(before, id)) == [Invited] && id in Step(Run(before), a).0.born
    requires Step(Run(before), a).0.board.now < Step(Run(before), a).0.born[id].at + 70_000
    ensures Unresolved(before, id)
  {
    StepKeepsOthers(Run(before), a, id);
    StepKeepsBirths(Run(before), a, id);
    ClockForward(Run(before), a);
  }

  lemma StillRings(before: seq<Action>, a: Action, id: CallId)
    requires Rings(Run(before).board, id) && Succeeded(Step(Run(before), a).1, id) == []
    requires id in Step(Run(before), a).0.born
    requires Step(Run(before), a).0.board.now < Step(Run(before), a).0.born[id].at + 70_000
    ensures Rings(Step(Run(before), a).0.board, id)
  {
    Reachable(before);
    assert Documented(Run(before), id);
    StepKeepsBirths(Run(before), a, id);
    NothingElseEndsACall(before, a, id);
  }

  lemma InvitedLast(before: seq<Op>, won: seq<Op>)
    requires before + won == [Invited] && |won| == 1
    ensures won == [Invited]
  {
    assert (before + won)[|before|] == won[0];
  }

  /** No lock of a call invited at t is left 1870 seconds after t, whatever happened since;
      while the call rings, not even 70 seconds. */
  lemma {:induction false} BusyTimeIsBounded(actions: seq<Action>, u: UserId)
    requires u in Run(actions).board.busy
    ensures var w := Run(actions); var c := w.board.busy[u].call;
      && c in w.born
      && w.board.now < w.born[c].at + 1_870_000
      && c in w.board.calls
      && (w.board.calls[c].phase == Ringing ==> w.board.now < w.born[c].at + 70_000)
  {
    var w := Run(actions);
    Reachable(actions);
    var c := w.board.busy[u].call;
    BusyExactlyWhenParty(w.board, u, c);
    assert Documented(w, c) && Held(w.board, c);
  }

  /** The index holds every ringing call with its invite score, and no answered one. */
  lemma {:induction false} IndexTracksRinging(actions: seq<Action>, id: CallId)
    requires id in Run(actions).board.calls
    ensures var w := Run(actions);
      && (w.board.calls[id].phase == Ringing <==> id in w.board.ringing)
      && id in w.born
      && (id in w.board.ringing ==> w.board.ringing[id] == DueAt(w.born[id]))
  {
    Reachable(actions);
    assert Documented(Run(actions), id);
  }

  /** In every reachable state a ringing call is due at a limit exactly from 45 seconds after the
      second in which its invite was issued. */
  lemma {:induction false} DueAfterFortyFiveSeconds(actions: seq<Action>, id: CallId, limit: int)
    requires Rings(Run(actions).board, id)
    ensures var w := Run(actions);
      && id in w.born
      && (id in Overdue(w.board.ringing, limit) <==> w.born[id].issued / 1000 + 45 <= limit)
  {
    IndexTracksRinging(actions, id);
  }

  /** With everything interleaved, a timeout succeeds only for a call whose invite was issued at
      least 45 seconds before the sweeper's instant. */
  lemma {:induction false} NoTimeoutBeforeFortyFiveSeconds(actions: seq<Action>, worker: nat)
    requires var e := Step(Run(actions), SweepNext(worker)).1; e.Replied? && e.reply.Done?
    ensures var w := Run(actions); var s := w.sweeps[worker];
      s.ids[0] in w.born && w.born[s.ids[0]].issued / 1000 + 45 <= s.limit
  {
    TimeoutIsJustified(actions, worker);
    IndexTracksRinging(actions, Run(actions).sweeps[worker].ids[0]);
  }

  /** However long after its index read a sweeper acts, it only ever times out a call that
      still rings and was already overdue at its limit. */
  lemma {:induction false} TimeoutIsJustified(actions: seq<Action>, worker: nat)
    requires var e := Step(Run(actions), SweepNext(worker)).1; e.Replied? && e.reply.Done?
    ensures var w := Run(actions); var s := w.sweeps[worker]; var id := s.ids[0];
      && id in w.board.calls && w.board.calls[id].phase == Ringing
      && id in w.board.ringing && w.board.ringing[id] <= s.limit
  {
    Reachable(actions);
    var w := Run(actions);
    assert Justified(w, worker);
    var id := w.sweeps[worker].ids[0];
    assert Documented(w, id);
    assert w.sweeps[worker].ids[0] in w.sweeps[worker].ids;
  }
}
