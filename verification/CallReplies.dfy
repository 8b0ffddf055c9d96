/** What every request is answered, over all runs, from the history of the call alone: which
    successes it has had and when. Deadlines, records and locks play no part in the statements. */
module CallReplies {
  import opened CallBoard
  import opened CallHistory
  import opened CallRuns
  import opened Wrappers

  /** When the call was answered, if it was. */
  ghost function AnsweredAt(actions: seq<Action>, id: CallId): Option<nat> {
    if actions == [] then None
    else
      var before := actions[..|actions| - 1];
      var won := Succeeded(Step(Run(before), actions[|actions| - 1]).1, id);
      if won != [] && won[0].op == Answered then Some(Run(before).board.now) else AnsweredAt(before, id)
  }

  /** The call was answered, nothing has ended it since, and its 30 minutes are not over. */
  ghost predicate Talking(actions: seq<Action>, id: CallId) {
    && Ops(Successes(actions, id)) == [Invited, Answered]
    && id in Run(actions).born
    && AnsweredAt(actions, id).Some?
    && Run(actions).board.now < AnsweredAt(actions, id).value + 1_800_000
  }

  ghost predicate Live(actions: seq<Action>, id: CallId) {
    Unresolved(actions, id) || Talking(actions, id)
  }

  predicate Accepts(b: Board, id: CallId) {
    id in b.calls && b.calls[id].phase == Accepted
  }

  /** An accepted record expires 30 minutes after the answer. */
  lemma {:induction false} DeadlineFromAnswer(actions: seq<Action>, id: CallId)
    requires Accepts(Run(actions).board, id)
    ensures AnsweredAt(actions, id).Some?
    ensures Run(actions).board.calls[id].deadline == AnsweredAt(actions, id).value + 1_800_000
  {
    if actions != [] {
      var before, a := actions[..|actions| - 1], actions[|actions| - 1];
      Reachable(before);
      AcceptedBefore(before, a, id);
      if Accepts(Run(before).board, id) { DeadlineFromAnswer(before, id); }
    }
  }

  lemma AcceptedBefore(before: seq<Action>, a: Action, id: CallId)
    requires Accepts(Step(Run(before), a).0.board, id)
    ensures var w, v := Run(before), Step(Run(before), a).0;
      var won := Succeeded(Step(w, a).1, id);
      if won != [] && won[0].op == Answered then v.board.calls[id].deadline == w.board.now + 1_800_000
      else Accepts(w.board, id) && v.board.calls[id] == w.board.calls[id]
  {
    var w := Run(before);
    Reachable(before);
    if id in w.board.calls {
      NothingElseEndsACall(before, a, id);
    } else if Succeeded(Step(w, a).1, id) == [] {
      StepKeepsOthers(w, a, id);
    } else {
      SuccessNeedsPhase(w, a, id);
    }
  }

  /** Over every run the accepted calls are exactly those that are being talked. */
  lemma {:induction false} AnsweredCallsTalk(actions: seq<Action>, id: CallId)
    ensures Talking(actions, id) <==> Accepts(Run(actions).board, id)
  {
    Reachable(actions);
    SuccessesFollowTheGrammar(actions, id);
    assert Held(Run(actions).board, id);
    if Accepts(Run(actions).board, id) { DeadlineFromAnswer(actions, id); }
    if Talking(actions, id) { TalkingSoAccepted(actions, id); }
  }

  lemma {:induction false} TalkingSoAccepted(actions: seq<Action>, id: CallId)
    requires Talking(actions, id)
    ensures Accepts(Run(actions).board, id)
  {
    if actions != [] {
      var before, a := actions[..|actions| - 1], actions[|actions| - 1];
      Reachable(before);
      SuccessesFollowTheGrammar(before, id);
      var won := Succeeded(Step(Run(before), a).1, id);
      OpsAppend(Successes(before, id), won);
      if won == [] {
        assert Ops(Successes(before, id)) + Ops(won) == Ops(Successes(before, id));
        ClockForward(Run(before), a);
        StepKeepsOthers(Run(before), a, id);
        TalkingSoAccepted(before, id);
        DeadlineFromAnswer(before, id);
        NothingElseEndsACall(before, a, id);
      } else {
        AnsweredLast(Ops(Successes(before, id)), Ops(won));
        assert Ops(won)[0] == won[0].op;
        SuccessNeedsPhase(Run(before), a, id);
      }
    }
  }

  lemma AnsweredLast(before: seq<Op>, won: seq<Op>)
    requires before + won == [Invited, Answered] && |won| == 1
    ensures won == [Answered]
  {
    assert (before + won)[|before|] == won[0];
  }

  /** The records on the board are exactly the live calls, with the parties of their invites. */
  lemma {:induction false} RecordsAreLiveCalls(actions: seq<Action>, id: CallId)
    ensures Live(actions, id) <==> id in Run(actions).board.calls
    ensures Unresolved(actions, id) <==> Rings(Run(actions).board, id)
    ensures Live(actions, id) ==>
      var w := Run(actions);
      && id in w.born
      && w.board.calls[id].caller == w.born[id].caller
      && w.board.calls[id].callee == w.born[id].callee
      && w.board.calls[id].media == w.born[id].media
  {
    UnresolvedCallsRing(actions, id);
    AnsweredCallsTalk(actions, id);
    Reachable(actions);
    assert Documented(Run(actions), id);
  }

  predicate Party(b: Birth, u: UserId) {
    u == b.caller || u == b.callee
  }

  /** The user takes part in some live call. */
  ghost predicate Engaged(actions: seq<Action>, u: UserId) {
    exists id {:trigger Live(actions, id)} ::
      Live(actions, id) && id in Run(actions).born && Party(Run(actions).born[id], u)
  }

  lemma BusyExactlyWhenEngaged(actions: seq<Action>, u: UserId)
    ensures u in Run(actions).board.busy <==> Engaged(actions, u)
  {
    var b := Run(actions).board;
    Reachable(actions);
    if u in b.busy {
      BusyExactlyWhenParty(b, u, b.busy[u].call);
      RecordsAreLiveCalls(actions, b.busy[u].call);
    }
    if Engaged(actions, u) {
      var id :| Live(actions, id) && id in Run(actions).born && Party(Run(actions).born[id], u);
      RecordsAreLiveCalls(actions, id);
      BusyExactlyWhenParty(b, u, id);
    }
  }

  ghost function Answer(actions: seq<Action>, a: Action): Event {
    Step(Run(actions), a).1
  }

  // ---- the answers ----

  /** An invite succeeds exactly when neither user takes part in a live call, and otherwise names
      the caller first. */
  lemma {:induction false} InviteAnswer(actions: seq<Action>, caller: UserId, callee: UserId, id: CallId,
                                        media: string, issued: nat)
    requires id !in Run(actions).born && caller != callee && issued <= Run(actions).board.now
    ensures Answer(actions, DoInvite(caller, callee, id, media, issued)) == Replied(Invited, caller, id,
      if Engaged(actions, caller) then SelfBusy
      else if Engaged(actions, callee) then PeerBusy
      else Done(caller, callee, media, "invite"))
  {
    BusyExactlyWhenEngaged(actions, caller);
    BusyExactlyWhenEngaged(actions, callee);
  }

  /** A cancel succeeds exactly for the caller of an unresolved call. */
  lemma {:induction false} CancelAnswer(actions: seq<Action>, u: UserId, id: CallId)
    ensures Answer(actions, DoCancel(u, id)) == Replied(Cancelled, u, id,
      if !Live(actions, id) then Missing
      else
        var b := Run(actions).born[id];
        if u != b.caller then Forbidden
        else if Unresolved(actions, id) then Done(b.caller, b.callee, b.media, "cancel")
        else WrongState)
  {
    RecordsAreLiveCalls(actions, id);
  }

  /** A reject succeeds exactly for the callee of an unresolved call. */
  lemma {:induction false} RejectAnswer(actions: seq<Action>, u: UserId, id: CallId)
    ensures Answer(actions, DoReject(u, id)) == Replied(Rejected, u, id,
      if !Live(actions, id) then Missing
      else
        var b := Run(actions).born[id];
        if u != b.callee then Forbidden
        else if Unresolved(actions, id) then Done(b.caller, b.callee, b.media, "reject")
        else WrongState)
  {
    RecordsAreLiveCalls(actions, id);
  }

  /** An accept succeeds exactly for the callee of an unresolved call. */
  lemma {:induction false} AcceptAnswer(actions: seq<Action>, u: UserId, id: CallId)
    ensures Answer(actions, DoAccept(u, id)) == Replied(Answered, u, id,
      if !Live(actions, id) then Missing
      else
        var b := Run(actions).born[id];
        if u != b.callee then Forbidden
        else if Unresolved(actions, id) then Done(b.caller, b.callee, b.media, "")
        else WrongState)
  {
    RecordsAreLiveCalls(actions, id);
  }

  /** A hangup succeeds exactly for either party of a call that is being talked. */
  lemma {:induction false} HangupAnswer(actions: seq<Action>, u: UserId, id: CallId)
    ensures Answer(actions, DoHangup(u, id)) == Replied(HungUp, u, id,
      if !Live(actions, id) then Missing
      else
        var b := Run(actions).born[id];
        if u != b.caller && u != b.callee then Forbidden
        else if Talking(actions, id) then Done(b.caller, b.callee, b.media, "hangup")
        else WrongState)
  {
    RecordsAreLiveCalls(actions, id);
    AnsweredCallsTalk(actions, id);
  }

  /** A timeout succeeds exactly for an unresolved call. */
  lemma {:induction false} TimeoutAnswer(actions: seq<Action>, worker: nat)
    requires Left(Run(actions), worker) != []
    ensures var id := Left(Run(actions), worker)[0];
      Answer(actions, SweepNext(worker)) == Replied(TimedOut, "", id,
        if !Live(actions, id) then Missing
        else
          var b := Run(actions).born[id];
          if Unresolved(actions, id) then Done(b.caller, b.callee, b.media, "timeout")
          else WrongState)
  {
    RecordsAreLiveCalls(actions, Left(Run(actions), worker)[0]);
  }

  /** The requests that clean the index when the call is missing: all but a hangup. */
  predicate Cleans(op: Op) {
    op == Cancelled || op == Rejected || op == Answered || op == TimedOut
  }

  /** A refused request leaves records and locks as they are, and the index too, except that the
      entry of a call that is missing goes. */
  lemma {:induction false} RefusalsChangeNothing(actions: seq<Action>, a: Action)
    requires Answer(actions, a).Replied? && !Answer(actions, a).reply.Done?
    ensures var e, b := Answer(actions, a), Run(actions).board;
      Step(Run(actions), a).0.board ==
        if e.reply == Missing && Cleans(e.op) then b.(ringing := b.ringing - {e.call}) else b
  {
    Reachable(actions);
    var e, b := Answer(actions, a), Run(actions).board;
    assert Documented(Run(actions), e.call);
    if e.call !in b.ringing { assert b.ringing - {e.call} == b.ringing; }
  }
}
